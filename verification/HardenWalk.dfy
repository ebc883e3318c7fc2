/** The hardening walk as Go runs it: one mutable reference set, and loops that fill `out`. Each method is
    proved to compute the functions of module Harden. */
module HardenWalk {
  import opened Common
  import opened Ordering
  import opened Harden

  lemma NoItemsLeft(h: Heap, items: seq<Value>, depth: int, lim: Limits)
    ensures forall w :: HardenItems(h, items[|items|..], w, depth, lim) == ListRes([], w)
  {}

  /** One turn of the list loop: what is done and what is left still make up the whole. */
  lemma ItemsTurn(h: Heap, items: seq<Value>, i: nat, os: seq<Out>, w: Walk, depth: int, lim: Limits)
    requires i < |items|
    ensures var a := HardenValue(h, items[i], w, depth + 1, lim);
      var now, next := HardenItems(h, items[i..], w, depth, lim), HardenItems(h, items[i + 1..], a.w, depth, lim);
      os + now.os == os + [a.o] + next.os && now.w == next.w && w.seen <= a.w.seen
  {
    hide HardenItems, HardenValue, Left, Grew;
    assert items[i..][0] == items[i] && items[i..][1..] == items[i + 1..];
    ItemsUnroll(h, items[i..], w, depth, lim);
    var a := HardenValue(h, items[i], w, depth + 1, lim);
    var rest := HardenItems(h, items[i + 1..], a.w, depth, lim).os;
    assert os + ([a.o] + rest) == os + [a.o] + rest;
  }

  class Hardener {
    var seen: set<Id>
    ghost var entered: seq<Id>

    constructor ()
      ensures State() == Walk({}, [])
    {
      seen, entered := {}, [];
    }

    ghost function State(): Walk
      reads this
    {
      Walk(seen, entered)
    }

    /** _repeatReference. */
    method RepeatReference(id: Id) returns (repeat: bool)
      modifies this
      ensures repeat <==> id in old(seen)
      ensures State() == if repeat then old(State()) else Mark(old(State()), Some(id))
    {
      if id in seen { return true; }
      seen := seen + {id};
      repeat := false;
    }

    /** _followReferences: the loop over pointers. */
    method FollowReferences(h: Heap, v0: Value, lim: Limits) returns (v: Value, settled: Option<Out>)
      modifies this
      ensures var f := Follow(h, v0, old(State()), lim);
        State() == f.w && (if f.Settled? then settled == Some(f.o) else settled == None && v == f.v)
    {
      v := v0;
      while v.Ptr? || v.NilRef?
        invariant Follow(h, v, State(), lim) == Follow(h, v0, old(State()), lim)
        decreases Left(h, seen), if v.Ptr? then 1 else 0
      {
        if v.NilRef? || !(v.id in h && h[v.id].PtrNode?) {
          return v, Some(ONil);
        }
        ghost var before := State();
        var repeat := RepeatReference(v.id);
        if repeat {
          return v, Some(OStr(REDACTED));
        }
        LeftDrops(h, before.seen, v.id);
        var node := h[v.id];
        if node.text.Some? {
          return v, Some(TextOut(node.text.value, lim));
        }
        entered := entered + [v.id];
        v := node.target;
      }
      settled := None;
    }

    method HardenOne(h: Heap, v0: Value, depth: int, lim: Limits) returns (o: Out)
      modifies this
      ensures Res(o, State()) == HardenValue(h, v0, old(State()), depth, lim)
      decreases Left(h, seen), 0, v0, 3
    {
      var v, settled := FollowReferences(h, v0, lim);
      if settled.Some? {
        return settled.value;
      }
      o := HardenResolved(h, v, depth, lim);
    }

    method HardenResolved(h: Heap, v: Value, depth: int, lim: Limits) returns (o: Out)
      requires !v.Ptr? && !v.NilRef?
      modifies this
      ensures Res(o, State()) == HardenReached(h, v, old(State()), depth, lim)
      decreases Left(h, seen), 0, v, 2
    {
      var id := Identity(h, v);
      if id.Some? {
        if (v.Map? || v.Slice?) && id.value !in seen { LeftDrops(h, seen, id.value); }
        var repeat := RepeatReference(id.value);
        if repeat {
          return OStr(REDACTED);
        }
      }
      var text := DescribedBy(h, v);
      if text.Some? {
        return TextOut(text.value, lim);
      }
      o := HardenKind(h, v, depth, lim, old(State()));
    }

    /** hardenKind: `before` is the walk before v's own identity was recorded. */
    method HardenKind(h: Heap, v: Value, depth: int, lim: Limits, ghost before: Walk) returns (o: Out)
      requires !v.Ptr? && !v.NilRef? && DescribedBy(h, v).None?
      requires State() == Mark(before, Identity(h, v))
      requires Identity(h, v).Some? ==> Identity(h, v).value !in before.seen
      modifies this
      ensures Identity(h, v).Some? ==> Res(o, State()) == HardenContainer(h, v, before, depth, lim)
      ensures Identity(h, v).None? ==> Res(o, State()) == HardenPlain(h, v, before, depth, lim)
      decreases Left(h, before.seen), 0, v, 1
    {
      match v
      case Nil => o := ONil;
      case Bool(b) => o := OBool(b);
      case Int(i) => o := OInt(i);
      case Uint(u) => o := OUint(u);
      case Float(f) => o := OFloat(f);
      case Str(s) => o := OStr(HardenString(s, lim));
      case Bytes(_, content, _) => o := OStr(HardenString(content, lim));
      case Opaque => o := OStr(REDACTED);
      case Map(id) =>
        var m := Entries(h, id);
        if depth >= lim.maxDepth || (id in h && h[id].MapNode? && !h[id].stringKeys) {
          return OStr(REDACTED);
        }
        if m == map[] {
          return OMap(map[]);
        }
        LeftDrops(h, before.seen, id);
        entered := entered + [id];
        o := HardenMap(h, m, depth, lim);
      case Slice(id, len) =>
        if depth >= lim.maxDepth {
          return OStr(REDACTED);
        }
        var items := Items(h, id, len);
        if items == [] {
          return OList([]);
        }
        LeftDrops(h, before.seen, id);
        entered := entered + [id];
        var os := HardenList(h, items, depth, lim);
        o := OList(os);
      case Array(items) =>
        if depth >= lim.maxDepth {
          return OStr(REDACTED);
        }
        var os := HardenList(h, items, depth, lim);
        o := OList(os);
      case Struct(fields) =>
        if depth >= lim.maxDepth {
          return OStr(REDACTED);
        }
        o := HardenStruct(h, fields, depth, lim);
    }

    /** hardenMap, on the keys in sorted order whatever order the map yields them in. */
    method HardenMap(h: Heap, m: map<string, Value>, depth: int, lim: Limits) returns (o: Out)
      modifies this
      ensures var r := HardenSorted(h, m, old(State()), depth, lim);
        o == OMap(r.acc.out) && State() == r.w
      decreases Left(h, seen), 1
    {
      EncodingsInjective();
      SortedPoints(m.Keys);
      var keys := CollectAndSort(Points, m.Keys);
      var out: map<string, Out>, verbatim: set<string> := map[], {};
      ghost var from: map<string, (string, Walk)> := map[];
      var i := 0;
      while i < |keys|
        invariant 0 <= i <= |keys| && (forall k :: k in keys[i..] ==> k in m)
        invariant HardenKeys(h, m, keys[i..], Keyed(out, verbatim, from), State(), depth, lim)
               == HardenSorted(h, m, old(State()), depth, lim)
        invariant old(seen) <= seen
      {
        var text := keys[i];
        var name := CleanKey(text);
        var untouched := name == text;
        assert keys[i..][0] == text && keys[i..][1..] == keys[i + 1..];
        assert text in keys[i..];
        i := i + 1;
        if name in out {
          if !untouched || name in verbatim { continue; }
        } else if lim.maxAttrs > 0 && |out| >= lim.maxAttrs {
          continue;
        }
        LeftMonotone(h, old(seen), seen);
        ghost var before := State();
        var hardened := HardenOne(h, m[text], depth + 1, lim);
        out := out[name := hardened];
        from := from[name := (text, before)];
        if untouched { verbatim := verbatim + {name}; }
      }
      o := OMap(out);
    }

    /** hardenList. */
    method HardenList(h: Heap, items: seq<Value>, depth: int, lim: Limits) returns (os: seq<Out>)
      modifies this
      ensures ListRes(os, State()) == HardenItems(h, items, old(State()), depth, lim)
      decreases Left(h, seen), 0, items, 0
    {
      hide HardenItems, HardenValue, Left, Grew;
      os := [];
      var i := 0;
      NoItemsLeft(h, items, depth, lim);
      assert items[0..] == items;
      while i < |items|
        invariant 0 <= i <= |items| && old(seen) <= seen
        invariant var r := HardenItems(h, items[i..], State(), depth, lim);
          ListRes(os + r.os, r.w) == HardenItems(h, items, old(State()), depth, lim)
      {
        LeftMonotone(h, old(seen), seen);
        ItemsTurn(h, items, i, os, State(), depth, lim);
        var o := HardenOne(h, items[i], depth + 1, lim);
        os := os + [o];
        i := i + 1;
      }
      assert os + [] == os;
    }

    /** hardenStruct. */
    method HardenStruct(h: Heap, fields: seq<Field>, depth: int, lim: Limits) returns (o: Out)
      modifies this
      ensures Res(o, State()) == HardenFields(h, fields, map[], old(State()), depth, lim)
      decreases Left(h, seen), 0, fields, 0
    {
      hide HardenFields, HardenValue, Left;
      var out: map<string, Out> := map[];
      var i := 0;
      assert fields[0..] == fields;
      while i < |fields|
        invariant 0 <= i <= |fields| && old(seen) <= seen
        invariant HardenFields(h, fields[i..], out, State(), depth, lim)
               == HardenFields(h, fields, map[], old(State()), depth, lim)
      {
        assert fields[i..][0] == fields[i] && fields[i..][1..] == fields[i + 1..];
        FieldsUnroll(h, fields[i..], out, State(), depth, lim);
        if lim.maxAttrs > 0 && |out| >= lim.maxAttrs {
          return OMap(out);
        }
        LeftMonotone(h, old(seen), seen);
        var hardened := HardenOne(h, fields[i].value, depth + 1, lim);
        out := out[fields[i].name := hardened];
        i := i + 1;
      }
      FieldsUnroll(h, fields[i..], out, State(), depth, lim);
      o := OMap(out);
    }
  }

  /** Harden. */
  method Run(h: Heap, v: Value, lim: Limits) returns (o: Out)
    ensures o == Hardened(h, v, lim).o
  {
    var w := new Hardener();
    o := w.HardenOne(h, v, 0, lim);
  }
}
