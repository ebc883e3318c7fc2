/** Sharing is all that connects two values hardened in one walk: what comes out for a value depends on the
    walk, and on the heap, only through the references the value itself can reach. */
module HardenLocal {
  import opened Common
  import opened Ordering
  import opened Harden
  import opened HardenSize

  /** The two walks have crossed the same of the references in R. */
  ghost predicate Agree(x: Walk, y: Walk, R: set<Id>) { forall id :: id in R ==> (id in x.seen <==> id in y.seen) }

  /** The two heaps hold the same at the references in R. */
  ghost predicate SameNodes(h: Heap, g: Heap, R: set<Id>) {
    forall id :: id in R ==> (id in h <==> id in g) && (id in h ==> h[id] == g[id])
  }

  lemma SameReading(h: Heap, g: Heap, v: Value, R: set<Id>)
    requires SameNodes(h, g, R) && RefsIn(v, R)
    ensures Identity(h, v) == Identity(g, v) && DescribedBy(h, v) == DescribedBy(g, v)
    ensures v.Map? ==> Entries(h, v.id) == Entries(g, v.id)
    ensures v.Slice? ==> Items(h, v.id, v.len) == Items(g, v.id, v.len)
  {}

  lemma AgreeMark(x: Walk, y: Walk, R: set<Id>, id: Id)
    requires Agree(x, y, R)
    ensures Agree(Mark(x, Some(id)), Mark(y, Some(id)), R)
    ensures Agree(Open(Mark(x, Some(id)), id), Open(Mark(y, Some(id)), id), R)
  {}

  lemma {:induction false} FollowLocal(h: Heap, g: Heap, v: Value, x: Walk, y: Walk, lim: Limits, R: set<Id>)
    requires Closed(h, R) && SameNodes(h, g, R) && RefsIn(v, R) && Agree(x, y, R)
    ensures var f := Follow(h, v, x, lim); var e := Follow(g, v, y, lim);
      Agree(f.w, e.w, R) &&
      if f.Settled? then e.Settled? && e.o == f.o else e.Reached? && e.v == f.v && RefsIn(f.v, R)
    decreases Left(h, x.seen)
  {
    hide Grew, Left;
    if v.Ptr? && v.id in h && h[v.id].PtrNode? && v.id !in x.seen {
      AgreeMark(x, y, R, v.id);
      if h[v.id].text.None? {
        LeftDrops(h, x.seen, v.id);
        FollowLocal(h, g, h[v.id].target, Open(Mark(x, Some(v.id)), v.id), Open(Mark(y, Some(v.id)), v.id), lim, R);
      }
    }
  }

  /** Hardening a value under two walks that agree on what it reaches gives the same output, and the walks
      agree afterwards. */
  lemma {:induction false} ValueLocal(h: Heap, g: Heap, v: Value, x: Walk, y: Walk, depth: int, lim: Limits, R: set<Id>)
    requires Closed(h, R) && SameNodes(h, g, R) && RefsIn(v, R) && Agree(x, y, R)
    ensures var a := HardenValue(h, v, x, depth, lim); var b := HardenValue(g, v, y, depth, lim);
      a.o == b.o && Agree(a.w, b.w, R)
    decreases Left(h, x.seen), 0, v, 2
  {
    hide Grew, RefsIn, Closed, HardenReached, Follow, Left, Agree;
    FollowLocal(h, g, v, x, y, lim, R);
    var f, e := Follow(h, v, x, lim), Follow(g, v, y, lim);
    if f.Reached? {
      ReachedLocal(h, g, f.v, f.w, e.w, depth, lim, R);
    }
  }

  lemma {:induction false} ReachedLocal(
    h: Heap, g: Heap, v: Value, x: Walk, y: Walk, depth: int, lim: Limits, R: set<Id>)
    requires Closed(h, R) && SameNodes(h, g, R) && RefsIn(v, R) && Agree(x, y, R) && !v.Ptr? && !v.NilRef?
    ensures var a := HardenReached(h, v, x, depth, lim); var b := HardenReached(g, v, y, depth, lim);
      a.o == b.o && Agree(a.w, b.w, R)
    decreases Left(h, x.seen), 0, v, 1
  {
    hide Grew, Left, RefsIn, Closed, HardenContainer, HardenPlain;
    if v.Bytes? || v.Map? || v.Slice? { RefsHeld(v, R); }
    SameReading(h, g, v, R);
    var id := Identity(h, v);
    if id.Some? {
      AgreeMark(x, y, R, id.value);
      if id.value !in x.seen && DescribedBy(h, v).None? { ContainerLocal(h, g, v, x, y, depth, lim, R); }
    } else if DescribedBy(h, v).None? {
      PlainLocal(h, g, v, x, y, depth, lim, R);
    }
  }

  lemma {:induction false} ContainerLocal(
    h: Heap, g: Heap, v: Value, x: Walk, y: Walk, depth: int, lim: Limits, R: set<Id>)
    requires Closed(h, R) && SameNodes(h, g, R) && RefsIn(v, R) && Agree(x, y, R)
    requires Identity(h, v).Some? && Identity(h, v).value !in x.seen && Identity(h, v).value !in y.seen
    ensures var a := HardenContainer(h, v, x, depth, lim); var b := HardenContainer(g, v, y, depth, lim);
      a.o == b.o && Agree(a.w, b.w, R)
    decreases Left(h, x.seen), 0, v, 0
  {
    hide Grew, HardenKeys, HardenItems, SortedKeys, HardenString, Left, Agree;
    AgreeMark(x, y, R, v.id);
    SameReading(h, g, v, R);
    if !(v.Bytes? || depth >= lim.maxDepth || (v.Map? && !h[v.id].stringKeys)) {
      LeftDrops(h, x.seen, v.id);
      LeftDrops(g, y.seen, v.id);
      var x2, y2 := Open(Mark(x, Some(v.id)), v.id), Open(Mark(y, Some(v.id)), v.id);
      if v.Map? {
        var m := Entries(h, v.id);
        SortedPoints(m.Keys);
        KeysLocal(h, g, m, SortedKeys(Points, m.Keys), Keyed(map[], {}, map[]), Keyed(map[], {}, map[]), x2, y2, depth,
          lim, R);
      } else {
        ItemsLocal(h, g, Items(h, v.id, v.len), x2, y2, depth, lim, R);
      }
    }
  }

  lemma {:induction false} PlainLocal(h: Heap, g: Heap, v: Value, x: Walk, y: Walk, depth: int, lim: Limits, R: set<Id>)
    requires Closed(h, R) && SameNodes(h, g, R) && RefsIn(v, R) && Agree(x, y, R)
    requires Identity(h, v).None? && DescribedBy(h, v).None? && !v.Ptr? && !v.NilRef?
    ensures var a := HardenPlain(h, v, x, depth, lim); var b := HardenPlain(g, v, y, depth, lim);
      a.o == b.o && Agree(a.w, b.w, R)
    decreases Left(h, x.seen), 0, v, 0
  {
    hide Grew, HardenFields, HardenItems, HardenString, Closed, Left, Agree;
    SameReading(h, g, v, R);
    if v.Array? && depth < lim.maxDepth {
      ItemsLocal(h, g, v.items, x, y, depth, lim, R);
    } else if v.Struct? && depth < lim.maxDepth {
      FieldsLocal(h, g, v.fields, map[], x, y, depth, lim, R);
    }
  }

  lemma {:induction false} ItemsLocal(
    h: Heap, g: Heap, items: seq<Value>, x: Walk, y: Walk, depth: int, lim: Limits, R: set<Id>)
    requires Closed(h, R) && SameNodes(h, g, R) && Agree(x, y, R) &&
      forall i :: 0 <= i < |items| ==> RefsIn(items[i], R)
    ensures var a := HardenItems(h, items, x, depth, lim); var b := HardenItems(g, items, y, depth, lim);
      a.os == b.os && Agree(a.w, b.w, R)
    decreases Left(h, x.seen), 0, items, 0
  {
    hide Grew, Closed, RefsIn, HardenValue, Left, Agree;
    if items != [] {
      ItemsUnroll(h, items, x, depth, lim);
      ItemsUnroll(g, items, y, depth, lim);
      ValueLocal(h, g, items[0], x, y, depth + 1, lim, R);
      ItemsLocal(h, g, items[1..], HardenValue(h, items[0], x, depth + 1, lim).w,
        HardenValue(g, items[0], y, depth + 1, lim).w, depth, lim, R);
    }
  }

  lemma {:induction false} FieldsLocal(
    h: Heap, g: Heap, fields: seq<Field>, out: map<string, Out>, x: Walk, y: Walk, depth: int, lim: Limits, R: set<Id>)
    requires Closed(h, R) && SameNodes(h, g, R) && Agree(x, y, R) &&
      forall i :: 0 <= i < |fields| ==> RefsIn(fields[i].value, R)
    ensures var a := HardenFields(h, fields, out, x, depth, lim); var b := HardenFields(g, fields, out, y, depth, lim);
      a.o == b.o && Agree(a.w, b.w, R)
    decreases Left(h, x.seen), 0, fields, 0
  {
    hide Grew, Closed, RefsIn, HardenValue, HardenFields, Left, Agree;
    FieldsUnroll(h, fields, out, x, depth, lim);
    FieldsUnroll(g, fields, out, y, depth, lim);
    if fields != [] && !(lim.maxAttrs > 0 && |out| >= lim.maxAttrs) {
      var a, b := HardenValue(h, fields[0].value, x, depth + 1, lim),
        HardenValue(g, fields[0].value, y, depth + 1, lim);
      ValueLocal(h, g, fields[0].value, x, y, depth + 1, lim, R);
      FieldsLocal(h, g, fields[1..], out[fields[0].name := a.o], a.w, b.w, depth, lim, R);
    }
  }

  /** The accumulators hold the same entries; the walks they were hardened under may differ. */
  predicate SameEntries(a: Keyed, b: Keyed) { a.out == b.out && a.verbatim == b.verbatim }

  lemma SameTurn(a: Keyed, b: Keyed, k: string, o: Out, x: Walk, y: Walk, lim: Limits)
    requires SameEntries(a, b)
    ensures Skips(a, k, lim) <==> Skips(b, k, lim)
    ensures SameEntries(Store(a, k, o, x), Store(b, k, o, y))
  {
    hide CleanKey;
  }

  lemma {:induction false} KeysLocal(
    h: Heap, g: Heap, m: map<string, Value>, keys: seq<string>, c: Keyed, d: Keyed, x: Walk, y: Walk, depth: int,
    lim: Limits, R: set<Id>)
    requires Closed(h, R) && SameNodes(h, g, R) && Agree(x, y, R) && SameEntries(c, d)
    requires (forall k :: k in m ==> RefsIn(m[k], R)) && forall k :: k in keys ==> k in m
    ensures var a := HardenKeys(h, m, keys, c, x, depth, lim); var b := HardenKeys(g, m, keys, d, y, depth, lim);
      SameEntries(a.acc, b.acc) && Agree(a.w, b.w, R)
    decreases Left(h, x.seen), 1, |keys|
  {
    hide Grew, Closed, RefsIn, HardenValue, HardenKeys, Skips, Store, Left, Agree, SameEntries;
    KeysUnroll(h, m, keys, c, x, depth, lim);
    KeysUnroll(g, m, keys, d, y, depth, lim);
    if keys != [] {
      var k, rest := keys[0], keys[1..];
      assert k in keys;
      var a, b := HardenValue(h, m[k], x, depth + 1, lim), HardenValue(g, m[k], y, depth + 1, lim);
      SameTurn(c, d, k, a.o, x, y, lim);
      if Skips(c, k, lim) {
        KeysLocal(h, g, m, rest, c, d, x, y, depth, lim, R);
      } else {
        ValueLocal(h, g, m[k], x, y, depth + 1, lim, R);
        KeysLocal(h, g, m, rest, Store(c, k, a.o, x), Store(d, k, b.o, y), a.w, b.w, depth, lim, R);
      }
    }
  }
}
