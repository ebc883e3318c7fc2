/** Hardening a hardened value. Every map and list in Harden's output is freshly made, so the second pass
    walks a tree: `Embed` lays an output tree out in a heap with a new node for each composite. */
module HardenTwice {
  import opened Common
  import opened Ordering
  import opened Harden
  import opened HardenShape

  datatype Copy = Copy(v: Value, h: Heap, next: nat)
  datatype CopyItems = CopyItems(vs: seq<Value>, h: Heap, next: nat)
  datatype CopyEntries = CopyEntries(m: map<string, Value>, h: Heap, next: nat)

  ghost predicate Within(h: Heap, lo: nat, hi: nat) { forall id :: id in h ==> lo <= id < hi }

  /** A fresh copy of o, its nodes numbered from next. */
  ghost function Embed(o: Out, next: nat): (c: Copy)
    ensures next <= c.next && Within(c.h, next, c.next)
    decreases o, 1
  {
    match o
    case ONil => Copy(Nil, map[], next)
    case OBool(b) => Copy(Bool(b), map[], next)
    case OInt(i) => Copy(Int(i), map[], next)
    case OUint(u) => Copy(Uint(u), map[], next)
    case OFloat(f) => Copy(Float(f), map[], next)
    case OStr(s) => Copy(Str(s), map[], next)
    case OList(items) =>
      var c := EmbedItems(items, next + 1);
      Copy(Slice(next, |items|), c.h[next := SliceNode(c.vs, None)], c.next)
    case OMap(m) =>
      SortedPoints(m.Keys);
      var c := EmbedEntries(o, SortedKeys(Points, m.Keys), next + 1);
      Copy(Map(next), c.h[next := MapNode(true, c.m, None)], c.next)
  }

  ghost function EmbedItems(items: seq<Out>, next: nat): (c: CopyItems)
    ensures next <= c.next && Within(c.h, next, c.next) && |c.vs| == |items|
    decreases items, 0
  {
    if items == [] then CopyItems([], map[], next)
    else
      var a := Embed(items[0], next);
      var b := EmbedItems(items[1..], a.next);
      CopyItems([a.v] + b.vs, a.h + b.h, b.next)
  }

  ghost function EmbedEntries(o: Out, keys: seq<string>, next: nat): (c: CopyEntries)
    requires o.OMap? && forall k :: k in keys ==> k in o.m
    ensures next <= c.next && Within(c.h, next, c.next) && c.m.Keys == set k | k in keys
    decreases o, 0, |keys|
  {
    if keys == [] then CopyEntries(map[], map[], next)
    else
      var a := Embed(o.m[keys[0]], next);
      assert keys == [keys[0]] + keys[1..];
      var b := EmbedEntries(o, keys[1..], a.next);
      CopyEntries(b.m[keys[0] := a.v], a.h + b.h, b.next)
  }

  ghost predicate Holds(H: Heap, c: Heap) { forall id :: id in c ==> id in H && H[id] == c[id] }

  /** Nothing in lo..hi has been crossed yet. */
  ghost predicate Untouched(w: Walk, lo: nat, hi: nat) { forall id :: id in w.seen ==> !(lo <= id < hi) }

  /** Only nodes in lo..hi were crossed between w and w'. */
  ghost predicate CrossedOnly(w: Walk, w': Walk, lo: nat, hi: nat) {
    forall id :: id in w'.seen ==> id in w.seen || lo <= id < hi
  }

  lemma UntouchedPart(w: Walk, lo: nat, mid: nat, hi: nat)
    requires Untouched(w, lo, hi) && lo <= mid <= hi
    ensures Untouched(w, lo, mid)
  {}

  /** Ranges compose: after crossing only lo..mid, the rest is still untouched. */
  lemma CrossedThen(w: Walk, x: Walk, lo: nat, mid: nat, hi: nat)
    requires Untouched(w, lo, hi) && lo <= mid <= hi && CrossedOnly(w, x, lo, mid)
    ensures Untouched(x, mid, hi)
    ensures forall y: Walk {:trigger CrossedOnly(x, y, mid, hi)} ::
      CrossedOnly(x, y, mid, hi) ==> CrossedOnly(w, y, lo, hi)
  {}

  /** Limits under which the redaction sentinel survives the length cap. */
  predicate SentinelFits(lim: Limits) { lim.maxLen <= 0 || lim.maxLen >= |REDACTED| }

  lemma SentinelFixed(s: string, lim: Limits)
    requires SentinelFits(lim) && TextOk(s, lim)
    ensures HardenString(s, lim) == s
  {
    if s == REDACTED {
      assert Strip(KeptInText, s) == s;
    }
  }

  lemma HoldsJoin(H: Heap, a: Heap, b: Heap, lo: nat, mid: nat, hi: nat)
    requires Holds(H, a + b) && Within(a, lo, mid) && Within(b, mid, hi)
    ensures Holds(H, a) && Holds(H, b)
  {
    forall id | id in a ensures id in H && H[id] == a[id] { assert id in a + b && id !in b; }
    forall id | id in b ensures id in H && H[id] == b[id] { assert id in a + b; }
  }

  // ---- the copy, one level at a time --------------------------------------------------------------

  lemma ListCopy(H: Heap, o: Out, next: nat)
    requires o.OList? && Holds(H, Embed(o, next).h)
    ensures var c := EmbedItems(o.items, next + 1);
      Embed(o, next).v == Slice(next, |o.items|) && Embed(o, next).next == c.next && Holds(H, c.h)
      && Items(H, next, |o.items|) == c.vs && DescribedBy(H, Slice(next, |o.items|)).None?
      && (o.items == [] ==> Identity(H, Slice(next, |o.items|)).None?)
      && (o.items != [] ==> Identity(H, Slice(next, |o.items|)) == Some(next))
  {
    hide EmbedItems;
    var c, h' := EmbedItems(o.items, next + 1), Embed(o, next).h;
    assert h' == c.h[next := SliceNode(c.vs, None)];
    assert next in h' && H[next] == SliceNode(c.vs, None);
    forall id | id in c.h ensures id in H && H[id] == c.h[id] { assert id in h'; }
  }

  lemma ItemsCopy(H: Heap, items: seq<Out>, next: nat)
    requires items != [] && Holds(H, EmbedItems(items, next).h)
    ensures var a := Embed(items[0], next); var b := EmbedItems(items[1..], a.next); var c := EmbedItems(items, next);
      c.vs != [] && c.vs[0] == a.v && c.vs[1..] == b.vs && c.next == b.next && Holds(H, a.h) && Holds(H, b.h)
      && next <= a.next <= b.next
  {
    var a := Embed(items[0], next);
    var b := EmbedItems(items[1..], a.next);
    assert EmbedItems(items, next) == CopyItems([a.v] + b.vs, a.h + b.h, b.next);
    hide Embed, EmbedItems;
    HoldsJoin(H, a.h, b.h, next, a.next, b.next);
  }

  lemma MapOrder(m: map<string, Out>)
    ensures var keys := SortedKeys(Points, m.Keys);
      Distinct(keys) && (forall k :: k in keys <==> k in m) && |keys| == |m|
  {
    SortedPoints(m.Keys);
    hide SortedKeys;
    KeysCount(SortedKeys(Points, m.Keys), m.Keys);
    assert |m.Keys| == |m|;
  }

  lemma MapCopy(H: Heap, o: Out, keys: seq<string>, next: nat)
    requires o.OMap? && Holds(H, Embed(o, next).h) && keys == SortedKeys(Points, o.m.Keys)
    requires forall k :: k in keys <==> k in o.m
    ensures var c := EmbedEntries(o, keys, next + 1);
      Embed(o, next).v == Map(next) && Embed(o, next).next == c.next && Holds(H, c.h)
      && next in H && H[next] == MapNode(true, c.m, None) && c.m.Keys == o.m.Keys
  {
    MapEmbedding(o, keys, next);
    hide EmbedEntries, SortedKeys, Embed;
    var c := EmbedEntries(o, keys, next + 1);
    var h' := c.h[next := MapNode(true, c.m, None)];
    assert next in h';
    forall id | id in c.h ensures id in H && H[id] == c.h[id] { assert id in h'; }
  }

  lemma MapEmbedding(o: Out, keys: seq<string>, next: nat)
    requires o.OMap? && keys == SortedKeys(Points, o.m.Keys) && forall k :: k in keys <==> k in o.m
    ensures var c := EmbedEntries(o, keys, next + 1);
      Embed(o, next) == Copy(Map(next), c.h[next := MapNode(true, c.m, None)], c.next) && c.m.Keys == o.m.Keys
  {
    hide EmbedEntries, SortedKeys, Within;
  }

  lemma MapNodeRead(H: Heap, next: nat, m: map<string, Value>)
    requires next in H && H[next] == MapNode(true, m, None)
    ensures Entries(H, next) == m && DescribedBy(H, Map(next)).None?
    ensures m.Keys == {} ==> Identity(H, Map(next)).None?
    ensures m.Keys != {} ==> Identity(H, Map(next)) == Some(next)
  {
    assert m == map[] <==> m.Keys == {};
  }

  lemma EntriesCopy(H: Heap, o: Out, keys: seq<string>, next: nat)
    requires o.OMap? && keys != [] && Distinct(keys) && (forall k :: k in keys ==> k in o.m)
    requires Holds(H, EmbedEntries(o, keys, next).h)
    ensures (forall k :: k in keys[1..] ==> k in o.m && k in keys && k != keys[0]) && Distinct(keys[1..])
    ensures var a := Embed(o.m[keys[0]], next); var b := EmbedEntries(o, keys[1..], a.next);
      var c := EmbedEntries(o, keys, next);
      c.m == b.m[keys[0] := a.v] && c.next == b.next && Holds(H, a.h) && Holds(H, b.h) && next <= a.next <= b.next
  {
    var a := Embed(o.m[keys[0]], next);
    var b := EmbedEntries(o, keys[1..], a.next);
    assert EmbedEntries(o, keys, next) == CopyEntries(b.m[keys[0] := a.v], a.h + b.h, b.next);
    hide Embed, EmbedEntries;
    HoldsJoin(H, a.h, b.h, next, a.next, b.next);
  }

  // ---- the walk over the copy -------------------------------------------------------------------

  lemma LeafFixed(H: Heap, o: Out, next: nat, w: Walk, depth: int, lim: Limits)
    requires SentinelFits(lim) && Capped(o, lim, depth, true) && !o.OList? && !o.OMap?
    ensures HardenValue(H, Embed(o, next).v, w, depth, lim) == Res(o, w)
  {
    if o.OStr? { SentinelFixed(o.s, lim); }
    var v := Embed(o, next).v;
    Enter(H, v, w, depth, lim);
    hide Grew, Left, HardenString, TextOk, HardenValue;
  }

  /** A container reached for the first time is handled by HardenContainer, an empty one by HardenPlain. */
  lemma Enter(H: Heap, v: Value, w: Walk, depth: int, lim: Limits)
    requires !v.Ptr? && !v.NilRef? && DescribedBy(H, v).None?
    requires Identity(H, v).Some? ==> Identity(H, v).value !in w.seen
    ensures Identity(H, v).Some? ==> HardenValue(H, v, w, depth, lim) == HardenContainer(H, v, w, depth, lim)
    ensures Identity(H, v).None? ==> HardenValue(H, v, w, depth, lim) == HardenPlain(H, v, w, depth, lim)
  {
    hide Grew, HardenContainer, HardenPlain, Left;
    assert Follow(H, v, w, lim) == Reached(v, w);
  }

  lemma EnterSlice(H: Heap, v: Value, w: Walk, depth: int, lim: Limits)
    requires v.Slice? && DescribedBy(H, v).None? && depth < lim.maxDepth
    ensures Identity(H, v).None? ==> HardenValue(H, v, w, depth, lim) == Res(OList([]), w)
    ensures Identity(H, v).Some? && v.id !in w.seen ==>
      var r := HardenItems(H, Items(H, v.id, v.len), Open(Mark(w, Some(v.id)), v.id), depth, lim);
      HardenValue(H, v, w, depth, lim) == Res(OList(r.os), r.w)
  {
    hide Grew, HardenItems, HardenValue, Left;
    if Identity(H, v).None? || v.id !in w.seen { Enter(H, v, w, depth, lim); }
  }

  lemma EnterMap(H: Heap, v: Value, w: Walk, depth: int, lim: Limits)
    requires v.Map? && DescribedBy(H, v).None? && depth < lim.maxDepth
    requires v.id in H && H[v.id].MapNode? && H[v.id].stringKeys
    ensures Identity(H, v).None? ==> HardenValue(H, v, w, depth, lim) == Res(OMap(map[]), w)
    ensures Identity(H, v).Some? && v.id !in w.seen ==>
      var r := HardenSorted(H, Entries(H, v.id), Open(Mark(w, Some(v.id)), v.id), depth, lim);
      HardenValue(H, v, w, depth, lim) == Res(OMap(r.acc.out), r.w)
  {
    hide Grew, HardenSorted, HardenValue, Left;
    if Identity(H, v).None? || v.id !in w.seen { Enter(H, v, w, depth, lim); }
  }

  /** A value that meets the caps is unchanged by hardening a fresh copy of it. */
  lemma {:induction false} Fixed(H: Heap, o: Out, next: nat, w: Walk, depth: int, lim: Limits)
    requires SentinelFits(lim) && Capped(o, lim, depth, true) && Holds(H, Embed(o, next).h)
    requires Untouched(w, next, Embed(o, next).next)
    ensures var r := HardenValue(H, Embed(o, next).v, w, depth, lim);
      r.o == o && CrossedOnly(w, r.w, next, Embed(o, next).next)
    decreases o, 1
  {
    hide Grew, Left, HardenValue, Embed, Capped, Holds;
    if o.OList? {
      FixedList(H, o, next, w, depth, lim);
    } else if o.OMap? {
      FixedMap(H, o, next, w, depth, lim);
    } else {
      LeafFixed(H, o, next, w, depth, lim);
    }
  }

  lemma {:induction false} FixedList(H: Heap, o: Out, next: nat, w: Walk, depth: int, lim: Limits)
    requires o.OList? && SentinelFits(lim) && Capped(o, lim, depth, true) && Holds(H, Embed(o, next).h)
    requires Untouched(w, next, Embed(o, next).next)
    ensures var r := HardenValue(H, Embed(o, next).v, w, depth, lim);
      r.o == o && CrossedOnly(w, r.w, next, Embed(o, next).next)
    decreases o, 0
  {
    hide *;
    CappedDepth(o, lim, depth);
    ListCopy(H, o, next);
    var v := Slice(next, |o.items|);
    var c := EmbedItems(o.items, next + 1);
    EnterSlice(H, v, w, depth, lim);
    if o.items == [] {
      NothingCrossed(w, next, c.next);
    } else {
      OwnNode(w, next, c.next);
      FixedItems(H, o.items, next + 1, Open(Mark(w, Some(next)), next), depth, lim);
    }
  }

  lemma {:induction false} FixedItems(H: Heap, items: seq<Out>, next: nat, w: Walk, depth: int, lim: Limits)
    requires SentinelFits(lim) && AllCapped(items, lim, depth + 1, true) && Holds(H, EmbedItems(items, next).h)
    requires Untouched(w, next, EmbedItems(items, next).next)
    ensures var r := HardenItems(H, EmbedItems(items, next).vs, w, depth, lim);
      r.os == items && CrossedOnly(w, r.w, next, EmbedItems(items, next).next)
    decreases items, 0
  {
    hide Grew, Left, HardenValue, Embed, Capped, Holds, Within;
    if items != [] {
      hide EmbedItems, HardenItems;
      ItemsCopy(H, items, next);
      var a := Embed(items[0], next);
      var c := EmbedItems(items, next);
      Fixed(H, items[0], next, w, depth + 1, lim);
      ItemsUnroll(H, c.vs, w, depth, lim);
      FixedItems(H, items[1..], a.next, HardenValue(H, a.v, w, depth + 1, lim).w, depth, lim);
      assert items == [items[0]] + items[1..];
    }
  }

  lemma {:induction false} FixedMap(H: Heap, o: Out, next: nat, w: Walk, depth: int, lim: Limits)
    requires o.OMap? && SentinelFits(lim) && Capped(o, lim, depth, true) && Holds(H, Embed(o, next).h)
    requires Untouched(w, next, Embed(o, next).next)
    ensures var r := HardenValue(H, Embed(o, next).v, w, depth, lim);
      r.o == o && CrossedOnly(w, r.w, next, Embed(o, next).next)
    decreases o, 0, |o.m| + 2
  {
    hide *;
    CappedDepth(o, lim, depth);
    MapOrder(o.m);
    var keys := SortedKeys(Points, o.m.Keys);
    MapCopy(H, o, keys, next);
    var c := EmbedEntries(o, keys, next + 1);
    MapNodeRead(H, next, c.m);
    EnterMap(H, Map(next), w, depth, lim);
    if o.m.Keys == {} {
      assert o.m == map[];
      NothingCrossed(w, next, c.next);
    } else {
      OwnNode(w, next, c.next);
      FixedSorted(H, o, c.m, keys, next + 1, Open(Mark(w, Some(next)), next), depth, lim);
    }
  }

  lemma CappedDepth(o: Out, lim: Limits, depth: int)
    requires Capped(o, lim, depth, true) && (o.OMap? || o.OList?)
    ensures depth < lim.maxDepth && (o.OList? ==> AllCapped(o.items, lim, depth + 1, true))
  {}

  lemma NothingCrossed(w: Walk, lo: nat, hi: nat)
    ensures CrossedOnly(w, w, lo, hi)
  {}

  /** Recording the composite's own node leaves its children's range untouched. */
  lemma OwnNode(w: Walk, next: nat, hi: nat)
    requires Untouched(w, next, hi) && next < hi
    ensures next !in w.seen && Untouched(Open(Mark(w, Some(next)), next), next + 1, hi)
    ensures forall y: Walk {:trigger CrossedOnly(w, y, next, hi)} ::
      CrossedOnly(Open(Mark(w, Some(next)), next), y, next + 1, hi) ==> CrossedOnly(w, y, next, hi)
  {}

  lemma {:induction false} FixedSorted(
    H: Heap, o: Out, m: map<string, Value>, keys: seq<string>, next: nat, w: Walk, depth: int, lim: Limits)
    requires o.OMap? && SentinelFits(lim) && Capped(o, lim, depth, true) && m.Keys == o.m.Keys
    requires keys == SortedKeys(Points, o.m.Keys) && (forall k :: k in keys <==> k in o.m)
    requires Distinct(keys) && |keys| == |o.m|
    requires var c := EmbedEntries(o, keys, next); Holds(H, c.h) && Untouched(w, next, c.next) && m == c.m
    ensures var r := HardenSorted(H, m, w, depth, lim);
      r.acc.out == o.m && CrossedOnly(w, r.w, next, EmbedEntries(o, keys, next).next)
    decreases o, 0, |o.m| + 1
  {
    var acc: Keyed := Keyed(map[], {}, map[]);
    hide Capped, Holds, EmbedEntries, Untouched, CrossedOnly, SortedKeys, HardenKeys, Distinct, Grew, Left;
    FixedKeys(H, o, m, keys, next, acc, w, depth, lim);
    assert (map k | k in keys :: o.m[k]) == o.m;
    assert map[] + o.m == o.m;
  }

  lemma {:induction false} KeysCount(keys: seq<string>, ks: set<string>)
    requires Distinct(keys) && forall k :: k in keys <==> k in ks
    ensures |keys| == |ks|
  {
    if keys == [] {
      assert ks == {};
    } else {
      assert keys == [keys[0]] + keys[1..];
      assert keys[0] in ks;
      KeysCount(keys[1..], ks - {keys[0]});
    }
  }

  /** A clean key whose name is free is stored as long as there is room. */
  lemma CleanKeyStored(o: Out, acc: Keyed, k: string, v: Out, w: Walk, depth: int, lim: Limits)
    requires o.OMap? && Capped(o, lim, depth, true) && k in o.m && k !in acc.out && |acc.out| < |o.m|
    ensures !Skips(acc, k, lim) && Store(acc, k, v, w).out == acc.out[k := v]
    ensures |acc.out[k := v]| == |acc.out| + 1 && Capped(o.m[k], lim, depth + 1, true)
  {
    CappedEntry(o, k, depth, lim);
    hide CleanKey, Capped;
    StoredCount(acc.out, k, v);
  }

  lemma CappedEntry(o: Out, k: string, depth: int, lim: Limits)
    requires o.OMap? && Capped(o, lim, depth, true) && k in o.m
    ensures CleanKey(k) == k && Capped(o.m[k], lim, depth + 1, true) && (lim.maxAttrs > 0 ==> |o.m| <= lim.maxAttrs)
  {
    hide CleanKey;
  }

  lemma StoredCount(m: map<string, Out>, k: string, v: Out)
    requires k !in m
    ensures |m[k := v]| == |m| + 1
  {
    assert m[k := v].Keys == m.Keys + {k};
    assert |m[k := v].Keys| == |m[k := v]| && |m.Keys| == |m|;
  }

  lemma EntriesJoin(o: Out, out: map<string, Out>, keys: seq<string>)
    requires o.OMap? && keys != [] && (forall k :: k in keys ==> k in o.m) && keys[0] !in keys[1..]
    ensures out[keys[0] := o.m[keys[0]]] + (map k | k in keys[1..] :: o.m[k]) == out + (map k | k in keys :: o.m[k])
  {
    assert keys == [keys[0]] + keys[1..];
  }

  lemma {:induction false} FixedKeys(
    H: Heap, o: Out, m: map<string, Value>, keys: seq<string>, next: nat, acc: Keyed, w: Walk, depth: int, lim: Limits)
    requires o.OMap? && SentinelFits(lim) && Capped(o, lim, depth, true)
    requires Distinct(keys) && forall k :: k in keys ==> k in o.m && k in m && k !in acc.out
    requires |acc.out| + |keys| <= |o.m|
    requires var c := EmbedEntries(o, keys, next);
      Holds(H, c.h) && Untouched(w, next, c.next) && forall k :: k in keys ==> m[k] == c.m[k]
    ensures var r := HardenKeys(H, m, keys, acc, w, depth, lim);
      CrossedOnly(w, r.w, next, EmbedEntries(o, keys, next).next)
      && r.acc.out == acc.out + map k | k in keys :: o.m[k]
    decreases o, 0, |keys|
  {
    hide Grew, Left, HardenValue, HardenKeys, Embed, Capped, Holds, Within, CleanKey, Skips, Store, SentinelFits;
    KeysUnroll(H, m, keys, acc, w, depth, lim);
    if keys == [] {
      assert acc.out + map[] == acc.out;
    } else {
      hide EmbedEntries, Untouched, CrossedOnly, Distinct;
      var k, rest := keys[0], keys[1..];
      EntriesCopy(H, o, keys, next);
      assert k in keys;
      var a := Embed(o.m[k], next);
      CleanKeyStored(o, acc, k, o.m[k], w, depth, lim);
      UntouchedPart(w, next, a.next, EmbedEntries(o, keys, next).next);
      Fixed(H, o.m[k], next, w, depth + 1, lim);
      var x := HardenValue(H, a.v, w, depth + 1, lim);
      CrossedThen(w, x.w, next, a.next, EmbedEntries(o, keys, next).next);
      FixedKeys(H, o, m, rest, a.next, Store(acc, k, x.o, w), x.w, depth, lim);
      EntriesJoin(o, acc.out, keys);
    }
  }

  /** Harden applied to a fresh copy of an output. */
  ghost function Rehardened(o: Out, lim: Limits): Out {
    Hardened(Embed(o, 0).h, Embed(o, 0).v, lim).o
  }

  /** Harden is idempotent on every value whose struct names are free of control characters, provided the
      sentinel fits under the length cap. */
  lemma HardenIdempotent(h: Heap, v: Value, lim: Limits)
    requires SentinelFits(lim) && HeapNamesClean(h) && NamesClean(v)
    ensures var o := Hardened(h, v, lim).o; Rehardened(o, lim) == o
  {
    hide *;
    var o := Hardened(h, v, lim).o;
    assert Capped(o, lim, 0, true) by { HardenedCapped(h, v, lim); }
    RehardenedFixed(o, lim);
  }

  lemma HardenedCapped(h: Heap, v: Value, lim: Limits)
    requires HeapNamesClean(h) && NamesClean(v)
    ensures Capped(Hardened(h, v, lim).o, lim, 0, true)
  {
    ValueCapped(h, v, Walk({}, []), 0, lim, true);
  }

  lemma RehardenedFixed(o: Out, lim: Limits)
    requires SentinelFits(lim) && Capped(o, lim, 0, true)
    ensures Rehardened(o, lim) == o
  {
    Fixed(Embed(o, 0).h, o, 0, Walk({}, []), 0, lim);
  }

  /** Struct fields inside v have JSON names from N. */
  ghost predicate NamesIn(v: Value, N: iset<string>) {
    match v
    case Array(items) => forall i :: 0 <= i < |items| ==> NamesIn(items[i], N)
    case Struct(fields) => forall i :: 0 <= i < |fields| ==> NamesIn(fields[i].value, N) && fields[i].name in N
    case _ => true
  }

  ghost predicate NodeNamesIn(node: Node, N: iset<string>) {
    match node
    case PtrNode(target, _) => NamesIn(target, N)
    case MapNode(_, m, _) => forall k :: k in m ==> NamesIn(m[k], N)
    case SliceNode(items, _) => forall i :: 0 <= i < |items| ==> NamesIn(items[i], N)
  }

  /** Every struct in the graph has its JSON names in N. */
  ghost predicate TaggedFrom(h: Heap, v: Value, N: iset<string>) {
    NamesIn(v, N) && forall id :: id in h ==> NodeNamesIn(h[id], N)
  }

  ghost predicate AllClean(N: iset<string>) { forall n :: n in N ==> CleanKey(n) == n }

  lemma {:induction false} CleanNames(v: Value, N: iset<string>)
    requires NamesIn(v, N) && AllClean(N)
    ensures NamesClean(v)
  {
    hide CleanKey;
    match v
    case Array(items) =>
      forall i | 0 <= i < |items| ensures NamesClean(items[i]) { CleanNames(items[i], N); }
    case Struct(fields) =>
      forall i | 0 <= i < |fields| ensures NamesClean(fields[i].value) { CleanNames(fields[i].value, N); }
    case _ =>
  }

  lemma CleanHeap(h: Heap, v: Value, N: iset<string>)
    requires TaggedFrom(h, v, N) && AllClean(N)
    ensures HeapNamesClean(h) && NamesClean(v)
  {
    hide AllClean, NamesIn, NamesClean;
    CleanNames(v, N);
    forall id | id in h ensures
      match h[id]
      case PtrNode(target, _) => NamesClean(target)
      case MapNode(_, m, _) => forall k :: k in m ==> NamesClean(m[k])
      case SliceNode(items, _) => forall i :: 0 <= i < |items| ==> NamesClean(items[i])
    {
      assert NodeNamesIn(h[id], N);
      match h[id]
      case PtrNode(target, _) => CleanNames(target, N);
      case MapNode(_, m, _) => forall k | k in m ensures NamesClean(m[k]) { CleanNames(m[k], N); }
      case SliceNode(items, _) => forall i | 0 <= i < |items| ensures NamesClean(items[i]) { CleanNames(items[i], N); }
    }
  }

  /** With no depth allowed nothing is expanded, so names do not matter. */
  lemma FlatIdempotent(h: Heap, v: Value, lim: Limits)
    requires SentinelFits(lim) && lim.maxDepth <= 0
    ensures Rehardened(Hardened(h, v, lim).o, lim) == Hardened(h, v, lim).o
  {
    hide Rehardened;
    ValueCapped(h, v, Walk({}, []), 0, lim, false);
    RehardenedFixed(Hardened(h, v, lim).o, lim);
  }

  ghost predicate IdempotentOn(N: iset<string>, lim: Limits) {
    forall h: Heap, v: Value :: TaggedFrom(h, v, N) ==> Rehardened(Hardened(h, v, lim).o, lim) == Hardened(h, v, lim).o
  }

  /** Harden is idempotent on all values whose struct names come from N exactly when the sentinel fits under
      the length cap and, unless the depth cap forbids every container, the names in N are free of control
      characters. At a length of 1 or 2 a redacted value is cut to "*..." or "**..." the second time; an
      unclean name is kept by the first pass and cleaned by the second. */
  lemma IdempotentIff(N: iset<string>, lim: Limits)
    ensures IdempotentOn(N, lim) <==> SentinelFits(lim) && (lim.maxDepth <= 0 || AllClean(N))
  {
    hide Rehardened, Hardened, CleanKey, SentinelFits;
    if SentinelFits(lim) && (lim.maxDepth <= 0 || AllClean(N)) {
      forall h: Heap, v: Value | TaggedFrom(h, v, N)
        ensures Rehardened(Hardened(h, v, lim).o, lim) == Hardened(h, v, lim).o
      {
        if lim.maxDepth <= 0 {
          FlatIdempotent(h, v, lim);
        } else {
          CleanHeap(h, v, N);
          HardenIdempotent(h, v, lim);
        }
      }
    } else if !SentinelFits(lim) {
      SentinelCut(lim);
      assert TaggedFrom(map[], Opaque, N);
    } else {
      var n :| n in N && CleanKey(n) != n;
      UncleanNameChanges(n, lim);
      assert NamesIn(Nil, N);
      var v := Struct([Field(n, Nil)]);
      assert NamesIn(v, N);
      assert TaggedFrom(map[], v, N);
    }
  }

  lemma SentinelCut(lim: Limits)
    requires !SentinelFits(lim)
    ensures Hardened(map[], Opaque, lim).o == OStr(REDACTED) && Rehardened(OStr(REDACTED), lim) != OStr(REDACTED)
  {
    var h: Heap, w := map[], Walk({}, []);
    Enter(h, Opaque, w, 0, lim);
    Enter(h, Str(REDACTED), w, 0, lim);
    SentinelTooLong(lim);
    hide HardenValue, HardenString, Grew;
    assert HardenPlain(h, Opaque, w, 0, lim).o == OStr(REDACTED);
    assert HardenPlain(h, Str(REDACTED), w, 0, lim).o == OStr(HardenString(REDACTED, lim));
    assert Embed(OStr(REDACTED), 0) == Copy(Str(REDACTED), map[], 0);
  }

  lemma SentinelTooLong(lim: Limits)
    requires !SentinelFits(lim)
    ensures HardenString(REDACTED, lim) != REDACTED
  {
    assert Strip(KeptInText, REDACTED) == REDACTED;
    hide Strip;
    var t := REDACTED[..lim.maxLen] + SUFFIX;
    assert t[lim.maxLen] == '.';
  }

  lemma UncleanNameKept(n: string, lim: Limits)
    requires lim.maxDepth > 0
    ensures Hardened(map[], Struct([Field(n, Nil)]), lim).o == OMap(map[n := ONil])
  {
    var v, w, h: Heap := Struct([Field(n, Nil)]), Walk({}, []), map[];
    Enter(h, v, w, 0, lim);
    Enter(h, Nil, w, 1, lim);
    assert HardenPlain(h, Nil, w, 1, lim) == Res(ONil, w);
    FieldsUnroll(h, v.fields, map[], w, 0, lim);
    FieldsUnroll(h, v.fields[1..], map[n := ONil], w, 0, lim);
    hide HardenValue, HardenFields, Grew;
    assert HardenPlain(h, v, w, 0, lim) == HardenFields(h, v.fields, map[], w, 0, lim);
  }

  /** Any struct JSON name with a control character is kept by the first pass and lost by the second. */
  lemma UncleanNameChanges(n: string, lim: Limits)
    requires lim.maxDepth > 0 && CleanKey(n) != n
    ensures var o := Hardened(map[], Struct([Field(n, Nil)]), lim).o;
      o == OMap(map[n := ONil]) && Rehardened(o, lim) != o
  {
    hide CleanKey;
    var o := OMap(map[n := ONil]);
    UncleanNameKept(n, lim);
    assert Capped(Rehardened(o, lim), lim, 0, true) by {
      EmbedNames(o, 0);
      HardenedCapped(Embed(o, 0).h, Embed(o, 0).v, lim);
    }
    assert n in o.m;
    assert !Capped(o, lim, 0, true);
  }

  lemma EmbedNames(o: Out, next: nat)
    requires o.OMap? && forall k :: k in o.m ==> o.m[k] == ONil
    ensures HeapNamesClean(Embed(o, next).h) && NamesClean(Embed(o, next).v)
  {
    SortedPoints(o.m.Keys);
    var keys := SortedKeys(Points, o.m.Keys);
    EntriesNil(o, keys, next + 1);
    MapEmbedding(o, keys, next);
    hide *;
    var c := EmbedEntries(o, keys, next + 1);
    SingleMapNames(c.h, next, c.m);
  }

  lemma SingleMapNames(h: Heap, next: nat, m: map<string, Value>)
    requires h == map[] && forall k :: k in m ==> m[k] == Nil
    ensures HeapNamesClean(h[next := MapNode(true, m, None)]) && NamesClean(Map(next))
  {}

  lemma {:induction false} EntriesNil(o: Out, keys: seq<string>, next: nat)
    requires o.OMap? && (forall k :: k in keys ==> k in o.m) && forall k :: k in o.m ==> o.m[k] == ONil
    ensures var c := EmbedEntries(o, keys, next); c.h == map[] && forall k :: k in c.m ==> c.m[k] == Nil
    decreases |keys|
  {
    if keys != [] {
      assert keys[0] in o.m;
      assert keys == [keys[0]] + keys[1..];
      EntriesNil(o, keys[1..], next);
    }
  }
}
