/** Recursive input hardening (go/harden.go) over an arbitrary, possibly cyclic, heap graph.

    Pointers, maps and slices are references; arrays and structs are held by value. `seen` holds every
    reference crossed anywhere in the walk and never shrinks: a reference crossed twice collapses to the
    redaction sentinel. */
module Harden {
  import opened Common
  import opened Ordering

  type Id = nat

  const REDACTED := "***"
  const SUFFIX := "..."

  datatype Limits = Limits(maxDepth: int, maxLen: int, maxAttrs: int)

  /** What a caller-supplied Error() or MarshalText() did: a text, or an error or panic. */
  datatype Text = Rendered(s: string) | Broken

  datatype Value =
    | Nil                                 // nil interface
    | NilRef                              // nil pointer; nil map or slice of a type that does not describe itself
    | Bool(b: bool)
    | Int(i: int)
    | Uint(u: nat)
    | Float(bits: nat)
    | Str(s: string)
    | Described(text: Text)               // a plain value, or a nil map or slice, of an error or TextMarshaler type
    | Opaque                              // chan, func, complex, unsafe.Pointer
    | Bytes(id: Id, content: string, described: Option<Text>)
    | Ptr(id: Id)
    | Map(id: Id)
    | Slice(id: Id, len: nat)
    | Array(items: seq<Value>)
    | Struct(fields: seq<Field>)          // exported fields that are not tagged "-", under their JSON names

  datatype Field = Field(name: string, value: Value)

  datatype Node =
    | PtrNode(target: Value, text: Option<Text>)
    | MapNode(stringKeys: bool, entries: map<string, Value>, text: Option<Text>)
    | SliceNode(items: seq<Value>, text: Option<Text>)

  type Heap = map<Id, Node>

  /** The JSON-shaped result. */
  datatype Out =
    | ONil
    | OBool(b: bool)
    | OInt(i: int)
    | OUint(u: nat)
    | OFloat(bits: nat)
    | OStr(s: string)
    | OList(items: seq<Out>)
    | OMap(m: map<string, Out>)

  // ---- strings ----------------------------------------------------------------------------------

  predicate KeptInText(r: char) {
    r == '\t' || r == '\n' || r == '\r' || (r as int >= 0x20 && r as int != 0x7f)
  }

  predicate KeptInKey(r: char) { r as int >= 0x20 && r as int != 0x7f }

  /** strings.Map dropping the runes keep rejects. */
  function Strip(keep: char -> bool, s: string): (t: string)
    ensures forall i :: 0 <= i < |t| ==> keep(t[i])
    ensures (forall i :: 0 <= i < |s| ==> keep(s[i])) <==> t == s
    ensures |t| <= |s|
  {
    if s == "" then ""
    else
      var t := Strip(keep, s[1..]);
      assert s == [s[0]] + s[1..];
      if keep(s[0]) then [s[0]] + t else t
  }

  function HardenString(s: string, lim: Limits): string {
    var cleaned := Strip(KeptInText, s);
    if lim.maxLen <= 0 || |cleaned| <= lim.maxLen then cleaned
    else cleaned[..lim.maxLen] + SUFFIX
  }

  function CleanKey(k: string): string { Strip(KeptInKey, k) }

  lemma CleanIsClean(k: string)
    ensures CleanKey(CleanKey(k)) == CleanKey(k)
  {}

  function TextOut(t: Text, lim: Limits): Out {
    if t.Rendered? then OStr(HardenString(t.s, lim)) else OStr(REDACTED)
  }

  // ---- references -------------------------------------------------------------------------------

  function Entries(h: Heap, id: Id): map<string, Value> {
    if id in h && h[id].MapNode? then h[id].entries else map[]
  }

  function Items(h: Heap, id: Id, len: nat): seq<Value> {
    if id in h && h[id].SliceNode? then
      (if len <= |h[id].items| then h[id].items[..len] else h[id].items)
    else []
  }

  /** _containerIdentity: non-empty maps and slices only. */
  function Identity(h: Heap, v: Value): Option<Id> {
    match v
    case Map(id) => if Entries(h, id) != map[] then Some(id) else None
    case Slice(id, len) => if Items(h, id, len) != [] then Some(id) else None
    case Bytes(id, content, _) => if content != "" then Some(id) else None
    case _ => None
  }

  function DescribedBy(h: Heap, v: Value): Option<Text> {
    match v
    case Described(t) => Some(t)
    case Map(id) => if id in h then h[id].text else None
    case Slice(id, _) => if id in h then h[id].text else None
    case Bytes(_, _, t) => t
    case _ => None
  }

  /** The walk's state: references crossed so far, and the references whose contents were traversed. */
  datatype Walk = Walk(seen: set<Id>, entered: seq<Id>)

  function Mark(w: Walk, id: Option<Id>): Walk {
    if id.Some? then w.(seen := w.seen + {id.value}) else w
  }

  function Open(w: Walk, id: Id): Walk { w.(entered := w.entered + [id]) }

  /** From w to w' references were only added, and each reference newly traversed was traversed once. */
  ghost predicate Grew(w: Walk, w': Walk) {
    && w.seen <= w'.seen
    && |w.entered| <= |w'.entered| && w'.entered[..|w.entered|] == w.entered
    && Distinct(w'.entered[|w.entered|..])
    && forall id :: id in w'.entered[|w.entered|..] ==> id in w'.seen && id !in w.seen
  }

  lemma GrewSeen(w: Walk, w': Walk)
    requires Grew(w, w')
    ensures w.seen <= w'.seen
  {}

  lemma GrewTrans(a: Walk, b: Walk, c: Walk)
    requires Grew(a, b) && Grew(b, c)
    ensures Grew(a, c)
  {
    var n := |a.entered|;
    var s, t := b.entered[n..], c.entered[|b.entered|..];
    assert c.entered[..n] == c.entered[..|b.entered|][..n];
    assert c.entered[n..] == s + t by {
      assert c.entered[n..] == c.entered[n..|b.entered|] + t;
      assert c.entered[n..|b.entered|] == c.entered[..|b.entered|][n..];
    }
    forall i, j | 0 <= i < j < |s + t| ensures (s + t)[i] != (s + t)[j] {
      if i < |s| <= j {
        assert s[i] in s && t[j - |s|] in t;
      }
    }
  }

  lemma GrewOpen(w: Walk, id: Id)
    requires id !in w.seen
    ensures Grew(w, Open(Mark(w, Some(id)), id)) && Grew(w, Mark(w, Some(id)))
  {
    assert (w.entered + [id])[|w.entered|..] == [id];
    assert w.entered[|w.entered|..] == [];
  }

  lemma GrewRefl(w: Walk)
    ensures Grew(w, w)
  {
    assert w.entered[|w.entered|..] == [];
  }

  function Left(h: Heap, seen: set<Id>): nat { |h.Keys - seen| }

  lemma LeftDrops(h: Heap, seen: set<Id>, id: Id)
    requires id in h && id !in seen
    ensures Left(h, seen + {id}) < Left(h, seen)
    ensures seen + {id} - {id} == seen
  {
    assert id in h.Keys - seen;
    Smaller(h.Keys - (seen + {id}), h.Keys - seen);
  }

  lemma LeftMonotone(h: Heap, a: set<Id>, b: set<Id>)
    requires a <= b
    ensures Left(h, b) <= Left(h, a)
  {
    if h.Keys - b != h.Keys - a { Smaller(h.Keys - b, h.Keys - a); }
  }

  // ---- the walk ---------------------------------------------------------------------------------

  datatype Followed = Settled(o: Out, w: Walk) | Reached(v: Value, w: Walk)

  /** _followReferences. A pointer that is not in the heap reads as nil. */
  ghost function Follow(h: Heap, v: Value, w: Walk, lim: Limits): (r: Followed)
    ensures Grew(w, r.w)
    ensures r.Reached? ==> !r.v.Ptr? && !r.v.NilRef?
    ensures r.Reached? ==> (r.v == v && r.w == w) || Left(h, r.w.seen) < Left(h, w.seen)
    decreases Left(h, w.seen)
  {
    GrewRefl(w);
    if v.NilRef? || (v.Ptr? && !(v.id in h && h[v.id].PtrNode?)) then Settled(ONil, w)
    else if !v.Ptr? then Reached(v, w)
    else if v.id in w.seen then Settled(OStr(REDACTED), w)
    else
      var node, w1 := h[v.id], Mark(w, Some(v.id));
      GrewOpen(w, v.id);
      if node.text.Some? then Settled(TextOut(node.text.value, lim), w1)
      else
        LeftDrops(h, w.seen, v.id);
        var r := Follow(h, node.target, Open(w1, v.id), lim);
        GrewTrans(w, Open(w1, v.id), r.w);
        LeftMonotone(h, Open(w1, v.id).seen, r.w.seen);
        r
  }

  datatype Res = Res(o: Out, w: Walk)
  datatype ListRes = ListRes(os: seq<Out>, w: Walk)

  /** hardenMap's accumulators, with the raw key and the walk each kept entry was hardened under. */
  datatype Keyed = Keyed(out: map<string, Out>, verbatim: set<string>, from: map<string, (string, Walk)>)
  datatype MapRes = MapRes(acc: Keyed, w: Walk)

  /** hardenValue. */
  ghost function HardenValue(h: Heap, v: Value, w: Walk, depth: int, lim: Limits): (r: Res)
    ensures Grew(w, r.w)
    decreases Left(h, w.seen), 0, v, 2
  {
    var f := Follow(h, v, w, lim);
    if f.Settled? then Res(f.o, f.w)
    else
      var r := HardenReached(h, f.v, f.w, depth, lim);
      GrewTrans(w, f.w, r.w);
      r
  }

  ghost function HardenReached(h: Heap, v: Value, w: Walk, depth: int, lim: Limits): (r: Res)
    requires !v.Ptr? && !v.NilRef?
    ensures Grew(w, r.w)
    decreases Left(h, w.seen), 0, v, 1
  {
    var id := Identity(h, v);
    GrewRefl(w);
    if id.Some? && id.value in w.seen then Res(OStr(REDACTED), w)
    else
      var w1 := Mark(w, id);
      if id.Some? then
        GrewOpen(w, id.value);
        if DescribedBy(h, v).Some? then Res(TextOut(DescribedBy(h, v).value, lim), w1)
        else HardenContainer(h, v, w, depth, lim)
      else if DescribedBy(h, v).Some? then Res(TextOut(DescribedBy(h, v).value, lim), w1)
      else HardenPlain(h, v, w, depth, lim)
  }

  /** hardenKind for a non-empty map or slice, whose identity is recorded first. */
  ghost function HardenContainer(h: Heap, v: Value, w: Walk, depth: int, lim: Limits): (r: Res)
    requires Identity(h, v).Some? && Identity(h, v).value !in w.seen
    ensures Grew(w, r.w)
    decreases Left(h, w.seen), 0, v, 0
  {
    var w1 := Mark(w, Some(v.id));
    GrewOpen(w, v.id);
    var w2 := Open(w1, v.id);
    if v.Bytes? then Res(OStr(HardenString(v.content, lim)), w1)
    else if depth >= lim.maxDepth then Res(OStr(REDACTED), w1)
    else if v.Map? then
      LeftDrops(h, w.seen, v.id);
      if !h[v.id].stringKeys then Res(OStr(REDACTED), w1)
      else
        var r := HardenSorted(h, Entries(h, v.id), w2, depth, lim);
        GrewTrans(w, w2, r.w);
        Res(OMap(r.acc.out), r.w)
    else
      LeftDrops(h, w.seen, v.id);
      var r := HardenItems(h, Items(h, v.id, v.len), w2, depth, lim);
      GrewTrans(w, w2, r.w);
      Res(OList(r.os), r.w)
  }

  /** hardenKind for everything else. */
  ghost function HardenPlain(h: Heap, v: Value, w: Walk, depth: int, lim: Limits): (r: Res)
    requires Identity(h, v).None? && DescribedBy(h, v).None? && !v.Ptr? && !v.NilRef?
    ensures Grew(w, r.w)
    decreases Left(h, w.seen), 0, v, 0
  {
    GrewRefl(w);
    match v
    case Nil => Res(ONil, w)
    case Bool(b) => Res(OBool(b), w)
    case Int(i) => Res(OInt(i), w)
    case Uint(u) => Res(OUint(u), w)
    case Float(f) => Res(OFloat(f), w)
    case Str(s) => Res(OStr(HardenString(s, lim)), w)
    case Bytes(_, content, _) => Res(OStr(HardenString(content, lim)), w)
    case Opaque => Res(OStr(REDACTED), w)
    case Map(id) =>
      if depth >= lim.maxDepth || (id in h && h[id].MapNode? && !h[id].stringKeys) then Res(OStr(REDACTED), w)
      else Res(OMap(map[]), w)
    case Slice(_, _) => if depth >= lim.maxDepth then Res(OStr(REDACTED), w) else Res(OList([]), w)
    case Array(items) =>
      if depth >= lim.maxDepth then Res(OStr(REDACTED), w)
      else var r := HardenItems(h, items, w, depth, lim); Res(OList(r.os), r.w)
    case Struct(fields) =>
      if depth >= lim.maxDepth then Res(OStr(REDACTED), w)
      else var r := HardenFields(h, fields, map[], w, depth, lim); Res(r.o, r.w)
  }

  /** hardenList. */
  ghost function HardenItems(h: Heap, items: seq<Value>, w: Walk, depth: int, lim: Limits): (r: ListRes)
    ensures Grew(w, r.w) && |r.os| == |items|
    decreases Left(h, w.seen), 0, items, 0
  {
    GrewRefl(w);
    if items == [] then ListRes([], w)
    else
      var a := HardenValue(h, items[0], w, depth + 1, lim);
      LeftMonotone(h, w.seen, a.w.seen);
      var b := HardenItems(h, items[1..], a.w, depth, lim);
      GrewTrans(w, a.w, b.w);
      ListRes([a.o] + b.os, b.w)
  }

  /** hardenStruct, from an accumulated output; the loop stops once the key cap is reached. */
  ghost function HardenFields(
    h: Heap, fields: seq<Field>, out: map<string, Out>, w: Walk, depth: int, lim: Limits): (r: Res)
    ensures Grew(w, r.w) && r.o.OMap?
    decreases Left(h, w.seen), 0, fields, 0
  {
    GrewRefl(w);
    if fields == [] || (lim.maxAttrs > 0 && |out| >= lim.maxAttrs) then Res(OMap(out), w)
    else
      var a := HardenValue(h, fields[0].value, w, depth + 1, lim);
      LeftMonotone(h, w.seen, a.w.seen);
      var b := HardenFields(h, fields[1..], out[fields[0].name := a.o], a.w, depth, lim);
      GrewTrans(w, a.w, b.w);
      b
  }

  /** Whether hardenMap leaves this raw key out: its name is taken and may not be reclaimed, or is new
      past the cap. */
  predicate Skips(acc: Keyed, k: string, lim: Limits) {
    var name := CleanKey(k);
    if name in acc.out then name != k || name in acc.verbatim
    else lim.maxAttrs > 0 && |acc.out| >= lim.maxAttrs
  }

  function Store(acc: Keyed, k: string, o: Out, w: Walk): Keyed {
    var name := CleanKey(k);
    Keyed(acc.out[name := o], if name == k then acc.verbatim + {name} else acc.verbatim, acc.from[name := (k, w)])
  }

  /** hardenMap's loop over the sorted keys. */
  ghost function HardenKeys(
    h: Heap, m: map<string, Value>, keys: seq<string>, acc: Keyed, w: Walk, depth: int, lim: Limits): (r: MapRes)
    requires forall k :: k in keys ==> k in m
    ensures Grew(w, r.w)
    decreases Left(h, w.seen), 1, |keys|
  {
    GrewRefl(w);
    if keys == [] then MapRes(acc, w)
    else
      var k, rest := keys[0], keys[1..];
      assert forall x :: x in rest ==> x in keys;
      if Skips(acc, k, lim) then HardenKeys(h, m, rest, acc, w, depth, lim)
      else
        var a := HardenValue(h, m[k], w, depth + 1, lim);
        LeftMonotone(h, w.seen, a.w.seen);
        var b := HardenKeys(h, m, rest, Store(acc, k, a.o, w), a.w, depth, lim);
        GrewTrans(w, a.w, b.w);
        b
  }

  /** hardenMap: the keys in byte order, from empty accumulators. */
  ghost function HardenSorted(h: Heap, m: map<string, Value>, w: Walk, depth: int, lim: Limits): (r: MapRes)
    ensures Grew(w, r.w)
    decreases Left(h, w.seen), 2
  {
    SortedPoints(m.Keys);
    HardenKeys(h, m, SortedKeys(Points, m.Keys), Keyed(map[], {}, map[]), w, depth, lim)
  }

  lemma SortedPoints(ks: set<string>)
    ensures Ascending(Points, SortedKeys(Points, ks)) && Distinct(SortedKeys(Points, ks))
    ensures forall k :: k in SortedKeys(Points, ks) <==> k in ks
  {
    EncodingsInjective();
    SortedKeysSpec(Points, ks);
    assert forall k :: k in SortedKeys(Points, ks) <==> k in (set x | x in SortedKeys(Points, ks));
  }

  // ---- one step of each loop ---------------------------------------------------------------------

  lemma ItemsUnroll(h: Heap, items: seq<Value>, w: Walk, depth: int, lim: Limits)
    requires items != []
    ensures var a := HardenValue(h, items[0], w, depth + 1, lim);
      var b := HardenItems(h, items[1..], a.w, depth, lim);
      HardenItems(h, items, w, depth, lim) == ListRes([a.o] + b.os, b.w)
      && w.seen <= a.w.seen && Left(h, a.w.seen) <= Left(h, w.seen)
  {
    hide HardenValue;
    LeftMonotone(h, w.seen, HardenValue(h, items[0], w, depth + 1, lim).w.seen);
  }

  lemma FieldsUnroll(h: Heap, fields: seq<Field>, out: map<string, Out>, w: Walk, depth: int, lim: Limits)
    ensures if fields == [] || (lim.maxAttrs > 0 && |out| >= lim.maxAttrs) then
        HardenFields(h, fields, out, w, depth, lim) == Res(OMap(out), w)
      else
        var a := HardenValue(h, fields[0].value, w, depth + 1, lim);
        HardenFields(h, fields, out, w, depth, lim)
        == HardenFields(h, fields[1..], out[fields[0].name := a.o], a.w, depth, lim)
        && w.seen <= a.w.seen && Left(h, a.w.seen) <= Left(h, w.seen)
  {
    hide HardenValue;
    if fields != [] { LeftMonotone(h, w.seen, HardenValue(h, fields[0].value, w, depth + 1, lim).w.seen); }
  }

  lemma KeysUnroll(h: Heap, m: map<string, Value>, keys: seq<string>, acc: Keyed, w: Walk, depth: int, lim: Limits)
    requires forall k :: k in keys ==> k in m
    ensures keys == [] ==> HardenKeys(h, m, keys, acc, w, depth, lim) == MapRes(acc, w)
    ensures keys != [] ==>
      (forall k :: k in keys[1..] ==> k in m) &&
      if Skips(acc, keys[0], lim) then
        HardenKeys(h, m, keys, acc, w, depth, lim) == HardenKeys(h, m, keys[1..], acc, w, depth, lim)
      else
        var a := HardenValue(h, m[keys[0]], w, depth + 1, lim);
        HardenKeys(h, m, keys, acc, w, depth, lim)
        == HardenKeys(h, m, keys[1..], Store(acc, keys[0], a.o, w), a.w, depth, lim)
        && w.seen <= a.w.seen && Left(h, a.w.seen) <= Left(h, w.seen)
  {
    hide HardenValue, Skips, Store;
    if keys != [] { LeftMonotone(h, w.seen, HardenValue(h, m[keys[0]], w, depth + 1, lim).w.seen); }
  }

  /** Harden. */
  ghost function Hardened(h: Heap, v: Value, lim: Limits): Res {
    HardenValue(h, v, Walk({}, []), 0, lim)
  }

  /** In the whole walk each map, slice or pointer is traversed at most once, cycles and sharing included. */
  lemma TraversedAtMostOnce(h: Heap, v: Value, lim: Limits)
    ensures Distinct(Hardened(h, v, lim).w.entered)
    ensures forall id :: id in Hardened(h, v, lim).w.entered ==> id in Hardened(h, v, lim).w.seen
  {
    var r := Hardened(h, v, lim);
    assert r.w.entered[0..] == r.w.entered;
  }
}
