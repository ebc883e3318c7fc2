/** The caps every hardened value meets, and when hardening twice changes nothing. */
module HardenShape {
  import opened Common
  import opened Ordering
  import opened Harden

  // ---- strings ----------------------------------------------------------------------------------

  predicate Clean(s: string) { forall i :: 0 <= i < |s| ==> KeptInText(s[i]) }

  /** No control characters; at most the limit plus the suffix; and either the sentinel or a text that
      hardening leaves alone. */
  ghost predicate TextOk(s: string, lim: Limits) {
    Clean(s) && (lim.maxLen > 0 ==> |s| <= lim.maxLen + |SUFFIX|) && (s == REDACTED || HardenString(s, lim) == s)
  }

  lemma StringsCapped(s: string, lim: Limits)
    ensures TextOk(HardenString(s, lim), lim) && TextOk(REDACTED, lim)
  {
    var cleaned := Strip(KeptInText, s);
    assert Strip(KeptInText, cleaned) == cleaned;
    if lim.maxLen > 0 && |cleaned| > lim.maxLen {
      var t := cleaned[..lim.maxLen] + SUFFIX;
      assert Clean(t);
      assert Strip(KeptInText, t) == t;
      assert t[..lim.maxLen] == cleaned[..lim.maxLen];
    }
  }

  // ---- caps -------------------------------------------------------------------------------------

  /** The shape Harden promises at a nesting depth. With `strict`, every key is free of control
      characters as well. */
  ghost predicate Capped(o: Out, lim: Limits, depth: int, strict: bool) {
    match o
    case OStr(s) => TextOk(s, lim)
    case OList(items) => depth < lim.maxDepth && AllCapped(items, lim, depth + 1, strict)
    case OMap(m) =>
      depth < lim.maxDepth && (lim.maxAttrs > 0 ==> |m| <= lim.maxAttrs)
      && forall k :: k in m ==> Capped(m[k], lim, depth + 1, strict) && (strict ==> CleanKey(k) == k)
    case _ => true
  }

  ghost predicate AllCapped(items: seq<Out>, lim: Limits, depth: int, strict: bool) {
    forall i :: 0 <= i < |items| ==> Capped(items[i], lim, depth, strict)
  }

  ghost predicate EntriesCapped(m: map<string, Out>, lim: Limits, depth: int, strict: bool) {
    (lim.maxAttrs > 0 ==> |m| <= lim.maxAttrs)
    && forall k :: k in m ==> Capped(m[k], lim, depth, strict) && (strict ==> CleanKey(k) == k)
  }

  /** Struct fields inside v have JSON names free of control characters. */
  ghost predicate NamesClean(v: Value) {
    match v
    case Array(items) => forall i :: 0 <= i < |items| ==> NamesClean(items[i])
    case Struct(fields) =>
      forall i :: 0 <= i < |fields| ==> NamesClean(fields[i].value) && CleanKey(fields[i].name) == fields[i].name
    case _ => true
  }

  ghost predicate HeapNamesClean(h: Heap) {
    forall id :: id in h ==>
      match h[id]
      case PtrNode(target, _) => NamesClean(target)
      case MapNode(_, m, _) => forall k :: k in m ==> NamesClean(m[k])
      case SliceNode(items, _) => forall i :: 0 <= i < |items| ==> NamesClean(items[i])
  }

  lemma LeafCapped(o: Out, t: Text, s: string, lim: Limits, depth: int, strict: bool)
    ensures Capped(TextOut(t, lim), lim, depth, strict)
    ensures Capped(OStr(REDACTED), lim, depth, strict) && Capped(OStr(HardenString(s, lim)), lim, depth, strict)
    ensures !o.OStr? && !o.OList? && !o.OMap? ==> Capped(o, lim, depth, strict)
    ensures depth < lim.maxDepth ==> Capped(OMap(map[]), lim, depth, strict) && Capped(OList([]), lim, depth, strict)
  {
    StringsCapped(s, lim);
    if t.Rendered? { StringsCapped(t.s, lim); }
    hide HardenString, TextOk;
  }

  lemma {:induction false} FollowCapped(h: Heap, v: Value, w: Walk, depth: int, lim: Limits, strict: bool)
    requires strict ==> HeapNamesClean(h) && NamesClean(v)
    ensures var f := Follow(h, v, w, lim);
      if f.Settled? then Capped(f.o, lim, depth, strict) else strict ==> NamesClean(f.v)
    decreases Left(h, w.seen)
  {
    hide Grew, Left, Capped;
    LeafCapped(ONil, Broken, "", lim, depth, strict);
    if v.Ptr? && v.id in h && h[v.id].PtrNode? && v.id !in w.seen {
      LeftDrops(h, w.seen, v.id);
      if h[v.id].text.Some? {
        LeafCapped(ONil, h[v.id].text.value, "", lim, depth, strict);
      } else {
        FollowCapped(h, h[v.id].target, Open(Mark(w, Some(v.id)), v.id), depth, lim, strict);
      }
    }
  }

  /** Every string, list and map in the output meets the caps. */
  lemma {:induction false} ValueCapped(h: Heap, v: Value, w: Walk, depth: int, lim: Limits, strict: bool)
    requires strict ==> HeapNamesClean(h) && NamesClean(v)
    ensures Capped(HardenValue(h, v, w, depth, lim).o, lim, depth, strict)
    decreases Left(h, w.seen), 0, v, 2
  {
    hide Grew, Capped, HeapNamesClean, NamesClean, HardenReached, Follow, Left;
    FollowCapped(h, v, w, depth, lim, strict);
    var f := Follow(h, v, w, lim);
    if f.Reached? {
      ReachedCapped(h, f.v, f.w, depth, lim, strict);
    }
  }

  lemma {:induction false} ReachedCapped(h: Heap, v: Value, w: Walk, depth: int, lim: Limits, strict: bool)
    requires !v.Ptr? && !v.NilRef? && (strict ==> HeapNamesClean(h) && NamesClean(v))
    ensures Capped(HardenReached(h, v, w, depth, lim).o, lim, depth, strict)
    decreases Left(h, w.seen), 0, v, 1
  {
    hide Grew, Capped, HeapNamesClean, NamesClean, HardenContainer, HardenPlain, Left;
    var id := Identity(h, v);
    LeafCapped(ONil, if DescribedBy(h, v).Some? then DescribedBy(h, v).value else Broken, "", lim, depth, strict);
    if id.Some? && id.value !in w.seen && DescribedBy(h, v).None? {
      ContainerCapped(h, v, w, depth, lim, strict);
    } else if id.None? && DescribedBy(h, v).None? {
      PlainCapped(h, v, w, depth, lim, strict);
    }
  }

  lemma {:induction false} ContainerCapped(h: Heap, v: Value, w: Walk, depth: int, lim: Limits, strict: bool)
    requires strict ==> HeapNamesClean(h) && NamesClean(v)
    requires Identity(h, v).Some? && Identity(h, v).value !in w.seen
    ensures Capped(HardenContainer(h, v, w, depth, lim).o, lim, depth, strict)
    decreases Left(h, w.seen), 0, v, 0
  {
    hide Grew, NamesClean, HardenKeys, HardenItems, SortedKeys, Left, TextOk, HardenString, CleanKey;
    LeafCapped(ONil, Broken, if v.Bytes? then v.content else "", lim, depth, strict);
    if !v.Bytes? && depth < lim.maxDepth {
      LeftDrops(h, w.seen, v.id);
      var w2 := Open(Mark(w, Some(v.id)), v.id);
      if v.Slice? {
        var items := Items(h, v.id, v.len);
        assert strict ==> forall i :: 0 <= i < |items| ==> NamesClean(items[i]);
        ItemsCapped(h, items, w2, depth, lim, strict);
      } else if h[v.id].stringKeys {
        var m := Entries(h, v.id);
        SortedPoints(m.Keys);
        KeysCapped(h, m, SortedKeys(Points, m.Keys), Keyed(map[], {}, map[]), w2, depth, lim, strict);
      }
    }
  }

  lemma {:induction false} PlainCapped(h: Heap, v: Value, w: Walk, depth: int, lim: Limits, strict: bool)
    requires strict ==> HeapNamesClean(h) && NamesClean(v)
    requires Identity(h, v).None? && DescribedBy(h, v).None? && !v.Ptr? && !v.NilRef?
    ensures Capped(HardenPlain(h, v, w, depth, lim).o, lim, depth, strict)
    decreases Left(h, w.seen), 0, v, 0
  {
    hide Grew, HardenFields, HardenItems, Left, TextOk, HardenString, CleanKey, HeapNamesClean;
    LeafCapped(HardenPlain(h, v, w, depth, lim).o, Broken,
               if v.Str? then v.s else if v.Bytes? then v.content else "", lim, depth, strict);
    if v.Array? && depth < lim.maxDepth {
      ItemsCapped(h, v.items, w, depth, lim, strict);
    } else if v.Struct? && depth < lim.maxDepth {
      FieldsCapped(h, v.fields, map[], w, depth, lim, strict);
    }
  }

  lemma {:induction false} ItemsCapped(h: Heap, items: seq<Value>, w: Walk, depth: int, lim: Limits, strict: bool)
    requires strict ==> HeapNamesClean(h) && forall i :: 0 <= i < |items| ==> NamesClean(items[i])
    ensures AllCapped(HardenItems(h, items, w, depth, lim).os, lim, depth + 1, strict)
    decreases Left(h, w.seen), 0, items, 0
  {
    hide Grew, Capped, HeapNamesClean, NamesClean, HardenValue, Left;
    if items != [] {
      ItemsUnroll(h, items, w, depth, lim);
      var a := HardenValue(h, items[0], w, depth + 1, lim);
      ValueCapped(h, items[0], w, depth + 1, lim, strict);
      ItemsCapped(h, items[1..], a.w, depth, lim, strict);
    }
  }

  lemma EntryStored(m: map<string, Out>, k: string, o: Out, lim: Limits, depth: int, strict: bool)
    requires EntriesCapped(m, lim, depth, strict) && Capped(o, lim, depth, strict) && (strict ==> CleanKey(k) == k)
    requires k in m || !(lim.maxAttrs > 0 && |m| >= lim.maxAttrs)
    ensures EntriesCapped(m[k := o], lim, depth, strict)
  {
    hide Capped, CleanKey;
    assert m[k := o].Keys == m.Keys + {k};
    assert |m[k := o].Keys| == |m[k := o]| && |m.Keys| == |m|;
    assert k in m ==> m.Keys + {k} == m.Keys;
  }

  lemma {:induction false} FieldsCapped(
    h: Heap, fields: seq<Field>, out: map<string, Out>, w: Walk, depth: int, lim: Limits, strict: bool)
    requires strict ==> HeapNamesClean(h)
    requires strict ==>
      forall i :: 0 <= i < |fields| ==> NamesClean(fields[i].value) && CleanKey(fields[i].name) == fields[i].name
    requires EntriesCapped(out, lim, depth + 1, strict)
    ensures EntriesCapped(HardenFields(h, fields, out, w, depth, lim).o.m, lim, depth + 1, strict)
    decreases Left(h, w.seen), 0, fields, 0
  {
    hide Grew, Capped, HeapNamesClean, NamesClean, HardenValue, HardenFields, Left, CleanKey, EntriesCapped;
    FieldsUnroll(h, fields, out, w, depth, lim);
    if fields != [] && !(lim.maxAttrs > 0 && |out| >= lim.maxAttrs) {
      var a := HardenValue(h, fields[0].value, w, depth + 1, lim);
      ValueCapped(h, fields[0].value, w, depth + 1, lim, strict);
      EntryStored(out, fields[0].name, a.o, lim, depth + 1, strict);
      FieldsCapped(h, fields[1..], out[fields[0].name := a.o], a.w, depth, lim, strict);
    }
  }

  lemma {:induction false} KeysCapped(
    h: Heap, m: map<string, Value>, keys: seq<string>, acc: Keyed, w: Walk, depth: int, lim: Limits, strict: bool)
    requires (strict ==> HeapNamesClean(h) && forall k :: k in m ==> NamesClean(m[k])) &&
      forall k :: k in keys ==> k in m
    requires EntriesCapped(acc.out, lim, depth + 1, strict)
    ensures EntriesCapped(HardenKeys(h, m, keys, acc, w, depth, lim).acc.out, lim, depth + 1, strict)
    decreases Left(h, w.seen), 1, |keys|
  {
    hide Grew, Capped, HeapNamesClean, NamesClean, HardenValue, HardenKeys, Left, CleanKey, EntriesCapped;
    KeysUnroll(h, m, keys, acc, w, depth, lim);
    if keys != [] {
      var k, rest := keys[0], keys[1..];
      assert k in keys;
      if Skips(acc, k, lim) {
        KeysCapped(h, m, rest, acc, w, depth, lim, strict);
      } else {
        var a := HardenValue(h, m[k], w, depth + 1, lim);
        ValueCapped(h, m[k], w, depth + 1, lim, strict);
        CleanIsClean(k);
        EntryStored(acc.out, CleanKey(k), a.o, lim, depth + 1, strict);
        KeysCapped(h, m, rest, Store(acc, k, a.o, w), a.w, depth, lim, strict);
      }
    }
  }
}
