/** The complete unfolding of a typed value: every reference expanded wherever it occurs, except where it is
    met again on its own way down. Hardening expands a reference once in the whole walk instead, so what it
    writes is the unfolding with some subtrees replaced by the sentinel (go/harden.go:97-189). */
module HardenUnfold {
  import opened Common
  import opened Ordering
  import opened Harden
  import opened HardenShared

  // ---- what a value is expanded into --------------------------------------------------------------

  /** A child the walk comes to: its value, and the name it is stored under. In a list names mean nothing. */
  datatype Kid = Kid(name: string, value: Value)

  predicate SkipsName(names: set<string>, verbatim: set<string>, k: string, lim: Limits) {
    var name := CleanKey(k);
    if name in names then name != k || name in verbatim else lim.maxAttrs > 0 && |names| >= lim.maxAttrs
  }

  /** hardenMap's choice of keys depends on the keys alone. */
  function VisitedKeys(keys: seq<string>, names: set<string>, verbatim: set<string>, lim: Limits): (r: seq<string>)
    ensures forall k :: k in r ==> k in keys
  {
    if keys == [] then []
    else
      var k, name := keys[0], CleanKey(keys[0]);
      assert forall x :: x in keys[1..] ==> x in keys;
      if SkipsName(names, verbatim, k, lim) then
        VisitedKeys(keys[1..], names, verbatim, lim)
      else
        [k] + VisitedKeys(keys[1..], names + {name}, if name == k then verbatim + {name} else verbatim, lim)
  }

  function KeyKids(m: map<string, Value>, keys: seq<string>): (r: seq<Kid>)
    requires forall k :: k in keys ==> k in m
    ensures |r| == |keys|
  {
    seq(|keys|, i requires 0 <= i < |keys| => Kid(CleanKey(keys[i]), m[keys[i]]))
  }

  /** hardenStruct stops once the key cap is reached. */
  function FieldKids(fields: seq<Field>, names: set<string>, lim: Limits): seq<Kid> {
    if fields == [] || (lim.maxAttrs > 0 && |names| >= lim.maxAttrs) then []
    else [Kid(fields[0].name, fields[0].value)] + FieldKids(fields[1..], names + {fields[0].name}, lim)
  }

  function ItemKids(items: seq<Value>): (r: seq<Kid>)
    ensures |r| == |items|
  {
    seq(|items|, i requires 0 <= i < |items| => Kid("", items[i]))
  }

  predicate IsList(v: Value) { v.Slice? || v.Array? }

  /** The children of a container, in the order the walk comes to them. */
  ghost function Kids(h: Heap, v: Value, lim: Limits): seq<Kid> {
    match v
    case Slice(id, len) => ItemKids(Items(h, id, len))
    case Array(items) => ItemKids(items)
    case Struct(fields) => FieldKids(fields, {}, lim)
    case Map(id) =>
      SortedPoints(Entries(h, id).Keys);
      KeyKids(Entries(h, id), VisitedKeys(SortedKeys(Points, Entries(h, id).Keys), {}, {}, lim))
    case _ => []
  }

  function Values(kids: seq<Kid>): (r: seq<Value>)
    ensures |r| == |kids| && forall i :: 0 <= i < |kids| ==> r[i] == kids[i].value
  {
    seq(|kids|, i requires 0 <= i < |kids| => kids[i].value)
  }

  /** What a value that is not expanded comes out as. */
  function Flat(h: Heap, v: Value, depth: int, lim: Limits): Option<Out> {
    if DescribedBy(h, v).Some? then Some(TextOut(DescribedBy(h, v).value, lim))
    else
      match v
      case Bool(b) => Some(OBool(b))
      case Int(i) => Some(OInt(i))
      case Uint(u) => Some(OUint(u))
      case Float(f) => Some(OFloat(f))
      case Str(s) => Some(OStr(HardenString(s, lim)))
      case Bytes(_, content, _) => Some(OStr(HardenString(content, lim)))
      case Opaque => Some(OStr(REDACTED))
      case Map(id) => if depth >= lim.maxDepth || !TextKeys(h, id) then Some(OStr(REDACTED)) else None
      case Slice(_, _) => if depth >= lim.maxDepth then Some(OStr(REDACTED)) else None
      case Array(_) => if depth >= lim.maxDepth then Some(OStr(REDACTED)) else None
      case Struct(_) => if depth >= lim.maxDepth then Some(OStr(REDACTED)) else None
      case _ => Some(ONil)
  }

  function StoreAll(kids: seq<Kid>, outs: seq<Out>, acc: map<string, Out>): map<string, Out>
    requires |outs| == |kids|
  {
    if kids == [] then acc else StoreAll(kids[1..], outs[1..], acc[kids[0].name := outs[0]])
  }

  /** A container from its children's outputs: a later child replaces an earlier one of the same name. */
  function Build(list: bool, kids: seq<Kid>, outs: seq<Out>): Out
    requires |outs| == |kids|
  {
    if list then OList(outs) else OMap(StoreAll(kids, outs, map[]))
  }

  // ---- the walk by cases --------------------------------------------------------------------------

  lemma {:induction false} FieldsAreKids(
    h: Heap, fields: seq<Field>, out: map<string, Out>, w: Walk, depth: int, lim: Limits)
    ensures var kids := FieldKids(fields, out.Keys, lim);
      var r := HardenItems(h, Values(kids), w, depth, lim);
      HardenFields(h, fields, out, w, depth, lim) == Res(OMap(StoreAll(kids, r.os, out)), r.w)
    decreases |fields|
  {
    hide HardenValue, HardenFields, HardenItems, Grew, Left;
    assert |out.Keys| == |out|;
    FieldsUnroll(h, fields, out, w, depth, lim);
    var kids := FieldKids(fields, out.Keys, lim);
    if kids == [] {
      NoItems(h, w, depth, lim);
    } else {
      var a := HardenValue(h, fields[0].value, w, depth + 1, lim);
      var out' := out[fields[0].name := a.o];
      assert out'.Keys == out.Keys + {fields[0].name};
      FieldsAreKids(h, fields[1..], out', a.w, depth, lim);
      FirstKid(h, kids, w, depth, lim);
      assert kids[1..] == FieldKids(fields[1..], out'.Keys, lim);
    }
  }

  lemma NoItems(h: Heap, w: Walk, depth: int, lim: Limits)
    ensures HardenItems(h, [], w, depth, lim) == ListRes([], w) && Values([]) == []
  {
    hide HardenValue;
  }

  /** The list loop's first turn over children. */
  lemma FirstKid(h: Heap, kids: seq<Kid>, w: Walk, depth: int, lim: Limits)
    requires kids != []
    ensures var a := HardenValue(h, kids[0].value, w, depth + 1, lim);
      var b := HardenItems(h, Values(kids[1..]), a.w, depth, lim);
      var r := HardenItems(h, Values(kids), w, depth, lim);
      r == ListRes([a.o] + b.os, b.w) && r.os[0] == a.o && r.os[1..] == b.os && w.seen <= a.w.seen
  {
    hide HardenValue, HardenItems, Grew, Left;
    assert Values(kids)[0] == kids[0].value && Values(kids)[1..] == Values(kids[1..]);
    ItemsUnroll(h, Values(kids), w, depth, lim);
  }

  lemma {:induction false} KeysAreKids(
    h: Heap, m: map<string, Value>, keys: seq<string>, acc: Keyed, w: Walk, depth: int, lim: Limits)
    requires forall k :: k in keys ==> k in m
    ensures var kids := KeyKids(m, VisitedKeys(keys, acc.out.Keys, acc.verbatim, lim));
      var r := HardenItems(h, Values(kids), w, depth, lim);
      var s := Harden.HardenKeys(h, m, keys, acc, w, depth, lim);
      s.acc.out == StoreAll(kids, r.os, acc.out) && s.w == r.w
    decreases |keys|
  {
    hide HardenValue, Harden.HardenKeys, HardenItems, Grew, Left, CleanKey, VisitedKeys, KeyKids, StoreAll, Store,
      Skips;
    KeysUnroll(h, m, keys, acc, w, depth, lim);
    if keys == [] {
      NoItems(h, w, depth, lim);
      NoVisits(m, acc, lim);
    } else {
      assert forall k :: k in keys[1..] ==> k in keys;
      var k := keys[0];
      var a := HardenValue(h, m[k], w, depth + 1, lim);
      VisitStep(m, keys, acc, a.o, w, lim);
      if Skips(acc, k, lim) {
        KeysAreKids(h, m, keys[1..], acc, w, depth, lim);
      } else {
        KeysAreKids(h, m, keys[1..], Store(acc, k, a.o, w), a.w, depth, lim);
        var kids := KeyKids(m, VisitedKeys(keys, acc.out.Keys, acc.verbatim, lim));
        FirstKid(h, kids, w, depth, lim);
        StoreFirst(kids, HardenItems(h, Values(kids), w, depth, lim).os, acc.out);
      }
    }
  }

  lemma StoreFirst(kids: seq<Kid>, outs: seq<Out>, acc: map<string, Out>)
    requires kids != [] && |outs| == |kids|
    ensures StoreAll(kids, outs, acc) == StoreAll(kids[1..], outs[1..], acc[kids[0].name := outs[0]])
  {}

  lemma NoVisits(m: map<string, Value>, acc: Keyed, lim: Limits)
    ensures KeyKids(m, VisitedKeys([], acc.out.Keys, acc.verbatim, lim)) == []
    ensures StoreAll([], [], acc.out) == acc.out
  {}

  /** One turn of the key loop, in names alone. */
  lemma VisitStep(m: map<string, Value>, keys: seq<string>, acc: Keyed, o: Out, w: Walk, lim: Limits)
    requires keys != [] && forall k :: k in keys ==> k in m
    ensures forall k :: k in keys[1..] ==> k in m
    ensures var acc' := Store(acc, keys[0], o, w);
      var kids := KeyKids(m, VisitedKeys(keys, acc.out.Keys, acc.verbatim, lim));
      if Skips(acc, keys[0], lim) then kids == KeyKids(m, VisitedKeys(keys[1..], acc.out.Keys, acc.verbatim, lim))
      else
        kids != [] && kids[0] == Kid(CleanKey(keys[0]), m[keys[0]]) &&
        kids[1..] == KeyKids(m, VisitedKeys(keys[1..], acc'.out.Keys, acc'.verbatim, lim)) &&
        acc'.out == acc.out[CleanKey(keys[0]) := o]
  {
    hide CleanKey, VisitedKeys, KeyKids, Skips, Store;
    assert keys[0] in keys;
    assert forall k :: k in keys[1..] ==> k in keys;
    VisitNames(keys, acc, o, w, lim);
    if !Skips(acc, keys[0], lim) {
      var acc' := Store(acc, keys[0], o, w);
      KeyKidsFirst(m, keys[0], VisitedKeys(keys[1..], acc'.out.Keys, acc'.verbatim, lim));
    }
  }

  lemma KeyKidsFirst(m: map<string, Value>, k: string, rest: seq<string>)
    requires k in m && forall x :: x in rest ==> x in m
    ensures forall x :: x in [k] + rest ==> x in m
    ensures var kids := KeyKids(m, [k] + rest); kids[0] == Kid(CleanKey(k), m[k]) && kids[1..] == KeyKids(m, rest)
  {
    hide CleanKey;
  }

  lemma VisitNames(keys: seq<string>, acc: Keyed, o: Out, w: Walk, lim: Limits)
    requires keys != []
    ensures var acc' := Store(acc, keys[0], o, w);
      acc'.out == acc.out[CleanKey(keys[0]) := o] &&
      VisitedKeys(keys, acc.out.Keys, acc.verbatim, lim) ==
        if Skips(acc, keys[0], lim) then VisitedKeys(keys[1..], acc.out.Keys, acc.verbatim, lim)
        else [keys[0]] + VisitedKeys(keys[1..], acc'.out.Keys, acc'.verbatim, lim)
  {
    SkipsByName(acc, keys[0], lim);
    StoreNames(acc, keys[0], o, w);
    hide CleanKey, Skips, SkipsName, Store;
  }

  lemma SkipsByName(acc: Keyed, k: string, lim: Limits)
    ensures Skips(acc, k, lim) <==> SkipsName(acc.out.Keys, acc.verbatim, k, lim)
  {
    hide CleanKey;
    assert |acc.out.Keys| == |acc.out|;
  }

  lemma StoreNames(acc: Keyed, k: string, o: Out, w: Walk)
    ensures var acc', name := Store(acc, k, o, w), CleanKey(k);
      acc'.out == acc.out[name := o] && acc'.out.Keys == acc.out.Keys + {name} &&
      acc'.verbatim == if name == k then acc.verbatim + {name} else acc.verbatim
  {
    hide CleanKey;
  }

  function Entered(w: Walk, id: Option<Id>): Walk { if id.Some? then Open(Mark(w, id), id.value) else w }

  /** hardenValue on anything but a pointer or a nil reference. */
  lemma ReachedStep(h: Heap, v: Value, w: Walk, depth: int, lim: Limits)
    requires !v.Ptr? && !v.NilRef?
    ensures var id := Identity(h, v);
      HardenValue(h, v, w, depth, lim) ==
        if id.Some? && id.value in w.seen then Res(OStr(REDACTED), w)
        else if Flat(h, v, depth, lim).Some? then Res(Flat(h, v, depth, lim).value, Mark(w, id))
        else
          var r := HardenItems(h, Values(Kids(h, v, lim)), Entered(w, id), depth, lim);
          Res(Build(IsList(v), Kids(h, v, lim), r.os), r.w)
  {
    hide HardenReached, HardenItems, Kids, Grew, Left, Build, Values, Flat;
    assert Follow(h, v, w, lim) == Reached(v, w);
    assert HardenValue(h, v, w, depth, lim) == HardenReached(h, v, w, depth, lim);
    ReachedByKids(h, v, w, depth, lim);
  }

  lemma ReachedByKids(h: Heap, v: Value, w: Walk, depth: int, lim: Limits)
    requires !v.Ptr? && !v.NilRef?
    ensures var id := Identity(h, v);
      HardenReached(h, v, w, depth, lim) ==
        if id.Some? && id.value in w.seen then Res(OStr(REDACTED), w)
        else if Flat(h, v, depth, lim).Some? then Res(Flat(h, v, depth, lim).value, Mark(w, id))
        else
          var r := HardenItems(h, Values(Kids(h, v, lim)), Entered(w, id), depth, lim);
          Res(Build(IsList(v), Kids(h, v, lim), r.os), r.w)
  {
    hide HardenContainer, HardenPlain, HardenItems, Kids, Grew, Left, Build, Values, HardenString;
    var id := Identity(h, v);
    if DescribedBy(h, v).None? {
      if id.None? {
        PlainByKids(h, v, w, depth, lim);
      } else if id.value !in w.seen {
        ContainerByKids(h, v, w, depth, lim);
      }
    }
  }

  lemma ContainerByKids(h: Heap, v: Value, w: Walk, depth: int, lim: Limits)
    requires Identity(h, v).Some? && Identity(h, v).value !in w.seen && DescribedBy(h, v).None?
    ensures HardenContainer(h, v, w, depth, lim) ==
      if Flat(h, v, depth, lim).Some? then Res(Flat(h, v, depth, lim).value, Mark(w, Identity(h, v)))
      else
        var r := HardenItems(h, Values(Kids(h, v, lim)), Entered(w, Identity(h, v)), depth, lim);
        Res(Build(IsList(v), Kids(h, v, lim), r.os), r.w)
  {
    hide HardenItems, Harden.HardenKeys, Grew, Left, HardenString, SortedKeys, VisitedKeys, StoreAll;
    if v.Map? && Flat(h, v, depth, lim).None? {
      var m := Entries(h, v.id);
      SortedPoints(m.Keys);
      var none: map<string, Out> := map[];
      assert none.Keys == {};
      KeysAreKids(h, m, SortedKeys(Points, m.Keys), Keyed(none, {}, map[]), Entered(w, Some(v.id)), depth, lim);
    } else if v.Slice? {
      assert Values(ItemKids(Items(h, v.id, v.len))) == Items(h, v.id, v.len);
    }
  }

  lemma PlainByKids(h: Heap, v: Value, w: Walk, depth: int, lim: Limits)
    requires !v.Ptr? && !v.NilRef? && Identity(h, v).None? && DescribedBy(h, v).None?
    ensures HardenPlain(h, v, w, depth, lim) ==
      if Flat(h, v, depth, lim).Some? then Res(Flat(h, v, depth, lim).value, w)
      else
        var r := HardenItems(h, Values(Kids(h, v, lim)), w, depth, lim);
        Res(Build(IsList(v), Kids(h, v, lim), r.os), r.w)
  {
    hide HardenItems, HardenFields, Grew, Left, HardenString, FieldKids, SortedKeys;
    if v.Struct? {
      var none: map<string, Out> := map[];
      assert none.Keys == {};
      FieldsAreKids(h, v.fields, none, w, depth, lim);
    } else if v.Array? {
      assert Values(ItemKids(v.items)) == v.items;
    } else if v.Slice? || v.Map? {
      EmptyKids(h, v, lim);
      NoItems(h, w, depth, lim);
    }
  }

  lemma EmptyKids(h: Heap, v: Value, lim: Limits)
    requires (v.Slice? || v.Map?) && Identity(h, v).None?
    ensures Kids(h, v, lim) == []
  {
    if v.Map? {
      SortedPoints({});
      NoneIn(SortedKeys(Points, {}));
    }
  }

  lemma NoneIn(s: seq<string>)
    requires forall k :: k !in s
    ensures s == []
  {
    if s != [] {
      HeadIn(s);
      assert false;
    }
  }

  lemma HeadIn(s: seq<string>)
    requires s != []
    ensures s[0] in s
  {}

  /** hardenValue on a nil reference or a pointer. */
  lemma PointerStep(h: Heap, v: Value, w: Walk, depth: int, lim: Limits)
    requires v.Ptr? || v.NilRef?
    ensures HardenValue(h, v, w, depth, lim) ==
      if !LivePtr(h, v) then Res(ONil, w)
      else if v.id in w.seen then Res(OStr(REDACTED), w)
      else if h[v.id].text.Some? then Res(TextOut(h[v.id].text.value, lim), Mark(w, Some(v.id)))
      else HardenValue(h, h[v.id].target, Entered(w, Some(v.id)), depth, lim)
  {
    hide HardenReached, Grew;
  }

  // ---- the unfolding ------------------------------------------------------------------------------

  function Larger(a: nat, b: nat): nat { if a <= b then b else a }

  /** How deep values are held by value inside v. */
  function Nest(v: Value): nat {
    match v
    case Map(_) => 1
    case Slice(_, _) => 1
    case Array(items) => 1 + NestItems(items)
    case Struct(fields) => 1 + NestFields(fields)
    case _ => 0
  }

  function NestItems(items: seq<Value>): nat {
    if items == [] then 0 else Larger(Nest(items[0]), NestItems(items[1..]))
  }

  function NestFields(fields: seq<Field>): nat {
    if fields == [] then 0 else Larger(Nest(fields[0].value), NestFields(fields[1..]))
  }

  function NestKids(kids: seq<Kid>): nat {
    if kids == [] then 0 else Larger(Nest(kids[0].value), NestKids(kids[1..]))
  }

  lemma {:induction false} ItemsNest(items: seq<Value>)
    ensures NestKids(ItemKids(items)) == NestItems(items)
  {
    if items != [] {
      ItemsNest(items[1..]);
      assert ItemKids(items)[1..] == ItemKids(items[1..]);
    }
  }

  lemma {:induction false} FieldsNest(fields: seq<Field>, names: set<string>, lim: Limits)
    ensures NestKids(FieldKids(fields, names, lim)) <= NestFields(fields)
  {
    if fields != [] && !(lim.maxAttrs > 0 && |names| >= lim.maxAttrs) {
      FieldsNest(fields[1..], names + {fields[0].name}, lim);
    }
  }

  /** A container without an identity holds its children by value. */
  lemma KidsNest(h: Heap, v: Value, depth: int, lim: Limits)
    requires Identity(h, v).None? && Flat(h, v, depth, lim).None?
    ensures NestKids(Kids(h, v, lim)) < Nest(v)
  {
    if v.Struct? {
      FieldsNest(v.fields, {}, lim);
    } else if v.Array? {
      ItemsNest(v.items);
    } else {
      EmptyKids(h, v, lim);
    }
  }

  lemma OpenedLeft(h: Heap, v: Value, path: set<Id>, depth: int, lim: Limits)
    requires Identity(h, v).Some? && Identity(h, v).value !in path && Flat(h, v, depth, lim).None?
    ensures Left(h, path + {Identity(h, v).value}) < Left(h, path)
  {
    LeftDrops(h, path, Identity(h, v).value);
  }

  function With(path: set<Id>, id: Option<Id>): set<Id> { if id.Some? then path + {id.value} else path }

  /** v written out in full: the sentinel stands only where the caps put it and where a reference is met again
      on its own way down, which is what path holds. */
  ghost function Unfold(h: Heap, v: Value, path: set<Id>, depth: int, lim: Limits): Out
    decreases Left(h, path), 2 * Nest(v), 0
  {
    if v.NilRef? || (v.Ptr? && !LivePtr(h, v)) then ONil
    else if v.Ptr? then
      if v.id in path then OStr(REDACTED)
      else if h[v.id].text.Some? then TextOut(h[v.id].text.value, lim)
      else
        LeftDrops(h, path, v.id);
        Unfold(h, h[v.id].target, path + {v.id}, depth, lim)
    else
      var id := Identity(h, v);
      if id.Some? && id.value in path then OStr(REDACTED)
      else if Flat(h, v, depth, lim).Some? then Flat(h, v, depth, lim).value
      else
        var kids := Kids(h, v, lim);
        if id.Some? then
          OpenedLeft(h, v, path, depth, lim);
          Build(IsList(v), kids, UnfoldKids(h, kids, path + {id.value}, depth + 1, lim))
        else
          KidsNest(h, v, depth, lim);
          Build(IsList(v), kids, UnfoldKids(h, kids, path, depth + 1, lim))
  }

  ghost function UnfoldKids(h: Heap, kids: seq<Kid>, path: set<Id>, depth: int, lim: Limits): (r: seq<Out>)
    ensures |r| == |kids|
    decreases Left(h, path), 2 * NestKids(kids) + 1, |kids|
  {
    if kids == [] then []
    else [Unfold(h, kids[0].value, path, depth, lim)] + UnfoldKids(h, kids[1..], path, depth, lim)
  }

  ghost function Unfolded(h: Heap, v: Value, lim: Limits): Out { Unfold(h, v, {}, 0, lim) }

  lemma UnfoldPointer(h: Heap, v: Value, path: set<Id>, depth: int, lim: Limits)
    requires v.Ptr? || v.NilRef?
    ensures Unfold(h, v, path, depth, lim) ==
      if !LivePtr(h, v) then ONil
      else if v.id in path then OStr(REDACTED)
      else if h[v.id].text.Some? then TextOut(h[v.id].text.value, lim)
      else Unfold(h, h[v.id].target, path + {v.id}, depth, lim)
    ensures LivePtr(h, v) && v.id !in path ==> Left(h, path + {v.id}) < Left(h, path)
  {
    if LivePtr(h, v) && v.id !in path { LeftDrops(h, path, v.id); }
    hide Left;
  }

  lemma UnfoldReached(h: Heap, v: Value, path: set<Id>, depth: int, lim: Limits)
    requires !v.Ptr? && !v.NilRef?
    ensures var id := Identity(h, v);
      Unfold(h, v, path, depth, lim) ==
        if id.Some? && id.value in path then OStr(REDACTED)
        else if Flat(h, v, depth, lim).Some? then Flat(h, v, depth, lim).value
        else Build(IsList(v), Kids(h, v, lim), UnfoldKids(h, Kids(h, v, lim), With(path, id), depth + 1, lim))
    ensures var id := Identity(h, v);
      (id.Some? ==> id.value !in path) && Flat(h, v, depth, lim).None? ==>
        if id.Some? then Left(h, With(path, id)) < Left(h, path) else NestKids(Kids(h, v, lim)) < Nest(v)
  {
    hide Kids, UnfoldKids, Build, Flat, Left, Nest, NestKids;
    var id := Identity(h, v);
    if (id.Some? ==> id.value !in path) && Flat(h, v, depth, lim).None? {
      if id.Some? { OpenedLeft(h, v, path, depth, lim); } else { KidsNest(h, v, depth, lim); }
    }
  }

  // ---- hardening writes the unfolding, cut --------------------------------------------------------

  /** a is b with some subtrees replaced by the sentinel. */
  predicate Pruned(a: Out, b: Out) {
    a == OStr(REDACTED) || a == b ||
    (a.OList? && b.OList? && |a.items| == |b.items| &&
      forall i :: 0 <= i < |a.items| ==> Pruned(a.items[i], b.items[i])) ||
    (a.OMap? && b.OMap? && a.m.Keys == b.m.Keys && forall k :: k in a.m ==> Pruned(a.m[k], b.m[k]))
  }

  lemma {:induction false} StoresPruned(
    kids: seq<Kid>, s: seq<Out>, t: seq<Out>, c: map<string, Out>, d: map<string, Out>)
    requires |s| == |t| == |kids| && forall i :: 0 <= i < |kids| ==> Pruned(s[i], t[i])
    requires c.Keys == d.Keys && forall k :: k in c ==> Pruned(c[k], d[k])
    ensures var a, b := StoreAll(kids, s, c), StoreAll(kids, t, d);
      a.Keys == b.Keys && forall k :: k in a ==> Pruned(a[k], b[k])
  {
    hide Pruned;
    if kids != [] {
      StoresPruned(kids[1..], s[1..], t[1..], c[kids[0].name := s[0]], d[kids[0].name := t[0]]);
    }
  }

  lemma BuildPruned(list: bool, kids: seq<Kid>, s: seq<Out>, t: seq<Out>)
    requires |s| == |t| == |kids| && forall i :: 0 <= i < |kids| ==> Pruned(s[i], t[i])
    ensures Pruned(Build(list, kids, s), Build(list, kids, t))
  {
    StoresPruned(kids, s, t, map[], map[]);
  }

  /** What hardening writes for a value, under any walk, is its unfolding with some subtrees cut. */
  lemma {:induction false} ValuePruned(h: Heap, v: Value, w: Walk, path: set<Id>, depth: int, lim: Limits)
    requires path <= w.seen
    ensures Pruned(HardenValue(h, v, w, depth, lim).o, Unfold(h, v, path, depth, lim))
    decreases Left(h, path), 2 * Nest(v), 0
  {
    hide HardenValue, Unfold, UnfoldKids, Build, Kids, Flat, Left, Nest, NestKids, Grew;
    if v.Ptr? || v.NilRef? {
      PointerStep(h, v, w, depth, lim);
      UnfoldPointer(h, v, path, depth, lim);
      if LivePtr(h, v) && v.id !in w.seen && h[v.id].text.None? {
        ValuePruned(h, h[v.id].target, Entered(w, Some(v.id)), path + {v.id}, depth, lim);
      }
    } else {
      var id := Identity(h, v);
      ReachedStep(h, v, w, depth, lim);
      UnfoldReached(h, v, path, depth, lim);
      if !(id.Some? && id.value in w.seen) && Flat(h, v, depth, lim).None? {
        var kids := Kids(h, v, lim);
        KidsPruned(h, kids, Entered(w, id), With(path, id), depth, lim);
        BuildPruned(IsList(v), kids, HardenItems(h, Values(kids), Entered(w, id), depth, lim).os,
          UnfoldKids(h, kids, With(path, id), depth + 1, lim));
      }
    }
  }

  lemma {:induction false} KidsPruned(h: Heap, kids: seq<Kid>, w: Walk, path: set<Id>, depth: int, lim: Limits)
    requires path <= w.seen
    ensures var s, t := HardenItems(h, Values(kids), w, depth, lim).os, UnfoldKids(h, kids, path, depth + 1, lim);
      |s| == |kids| && forall i :: 0 <= i < |kids| ==> Pruned(s[i], t[i])
    decreases Left(h, path), 2 * NestKids(kids) + 1, |kids|
  {
    hide HardenValue, HardenItems, Unfold, Left, Nest, Pruned, Grew;
    if kids == [] {
      NoItems(h, w, depth, lim);
    } else {
      FirstKid(h, kids, w, depth, lim);
      var a := HardenValue(h, kids[0].value, w, depth + 1, lim);
      ValuePruned(h, kids[0].value, w, path, depth + 1, lim);
      KidsPruned(h, kids[1..], a.w, path, depth, lim);
    }
  }
}
