/** How large the hardened output can be: at most one node more than the reachable graph has child slots,
    however often the graph shares its parts. */
module HardenSize {
  import opened Common
  import opened Ordering
  import opened Harden

  // ---- sizes ------------------------------------------------------------------------------------

  /** Nodes of an output tree. */
  ghost function Size(o: Out): nat
    decreases o, 1
  {
    match o
    case OList(items) => 1 + Sizes(items)
    case OMap(_) => 1 + MapSum(SizeTable(o))
    case _ => 1
  }

  ghost function SizeTable(o: Out): map<string, nat>
    requires o.OMap?
    decreases o, 0
  {
    map k | k in o.m :: Size(o.m[k])
  }

  ghost function Sizes(items: seq<Out>): nat {
    if items == [] then 0 else Size(items[0]) + Sizes(items[1..])
  }

  ghost function SizeOfEntries(m: map<string, Out>): nat { MapSum(SizeTable(OMap(m))) }

  lemma StoreGrows(m: map<string, Out>, k: string, o: Out)
    ensures SizeOfEntries(m[k := o]) <= SizeOfEntries(m) + Size(o)
  {
    hide Size, MapSum;
    var m' := m[k := o];
    MapSumStore(SizeTable(OMap(m)), k, Size(o));
    assert SizeTable(OMap(m')) == SizeTable(OMap(m))[k := Size(o)];
  }

  /** Child slots held by value inside v. */
  ghost function Inline(v: Value): nat {
    match v
    case Array(items) => SeqSlots(items)
    case Struct(fields) => FieldSlots(fields)
    case _ => 0
  }

  ghost function SeqSlots(items: seq<Value>): nat {
    if items == [] then 0 else 1 + Inline(items[0]) + SeqSlots(items[1..])
  }

  ghost function FieldSlots(fields: seq<Field>): nat {
    if fields == [] then 0 else 1 + Inline(fields[0].value) + FieldSlots(fields[1..])
  }

  ghost function KeySlots(m: map<string, Value>, keys: seq<string>): nat {
    if keys == [] then 0
    else (if keys[0] in m then 1 + Inline(m[keys[0]]) else 0) + KeySlots(m, keys[1..])
  }

  /** Child slots of one heap node, those nested by value included. */
  ghost function Slots(h: Heap, id: Id): nat {
    if id !in h then 0
    else match h[id]
      case PtrNode(target, _) => Inline(target)
      case MapNode(_, m, _) => KeySlots(m, SortedKeys(Points, m.Keys))
      case SliceNode(items, _) => SeqSlots(items)
  }

  ghost function SlotTable(h: Heap, ids: set<Id>): map<Id, nat> { map id | id in ids :: Slots(h, id) }

  /** Child slots of a set of nodes. */
  ghost function Mass(h: Heap, ids: set<Id>): nat { MapSum(SlotTable(h, ids)) }

  lemma MassAdd(h: Heap, ids: set<Id>, id: Id)
    requires id !in ids
    ensures Mass(h, ids + {id}) == Mass(h, ids) + Slots(h, id)
  {
    hide Slots, MapSum;
    MapSumStore(SlotTable(h, ids), id, Slots(h, id));
    assert SlotTable(h, ids + {id}) == SlotTable(h, ids)[id := Slots(h, id)];
  }

  lemma {:induction false} MassMonotone(h: Heap, a: set<Id>, b: set<Id>)
    requires a <= b
    ensures Mass(h, a) <= Mass(h, b)
    decreases |b - a|
  {
    hide Mass, Slots;
    if b - a == {} {
      assert a == b;
    } else {
      var x :| x in b - a;
      MassAdd(h, a, x);
      assert b - (a + {x}) == (b - a) - {x};
      MassMonotone(h, a + {x}, b);
    }
  }

  lemma {:induction false} PrefixSlots(items: seq<Value>, n: nat)
    requires n <= |items|
    ensures SeqSlots(items[..n]) <= SeqSlots(items)
  {
    if n > 0 {
      assert items[..n][0] == items[0] && items[..n][1..] == items[1..][..n - 1];
      PrefixSlots(items[1..], n - 1);
    }
  }

  // ---- reachability -----------------------------------------------------------------------------

  /** Every reference v holds, directly or by value, is in R. */
  ghost predicate RefsIn(v: Value, R: set<Id>) {
    match v
    case Bytes(id, _, _) => id in R
    case Ptr(id) => id in R
    case Map(id) => id in R
    case Slice(id, _) => id in R
    case Array(items) => forall i :: 0 <= i < |items| ==> RefsIn(items[i], R)
    case Struct(fields) => forall i :: 0 <= i < |fields| ==> RefsIn(fields[i].value, R)
    case _ => true
  }

  /** R is closed under following references. */
  ghost predicate Closed(h: Heap, R: set<Id>) {
    forall id :: id in R && id in h ==>
      match h[id]
      case PtrNode(target, _) => RefsIn(target, R)
      case MapNode(_, m, _) => forall k :: k in m ==> RefsIn(m[k], R)
      case SliceNode(items, _) => forall i :: 0 <= i < |items| ==> RefsIn(items[i], R)
  }

  // ---- the bound --------------------------------------------------------------------------------

  /** What one step of the walk costs: nodes built are paid for by slots of newly crossed references. */
  ghost predicate Paid(h: Heap, R: set<Id>, nodes: nat, budget: nat, w: Walk, w': Walk) {
    nodes + Mass(h, w.seen) <= budget + Mass(h, w'.seen) && w'.seen <= w.seen + R
  }

  lemma PaidMore(h: Heap, R: set<Id>, nodes: nat, budget: nat, w: Walk, w': Walk)
    requires w.seen <= w'.seen <= w.seen + R && nodes <= budget
    ensures Paid(h, R, nodes, budget, w, w')
  {
    MassMonotone(h, w.seen, w'.seen);
  }

  lemma {:induction false} FollowPaid(h: Heap, v: Value, w: Walk, lim: Limits, R: set<Id>)
    requires Closed(h, R) && RefsIn(v, R)
    ensures var f := Follow(h, v, w, lim);
      if f.Settled? then Paid(h, R, Size(f.o), 1 + Inline(v), w, f.w)
      else RefsIn(f.v, R) && Paid(h, R, Inline(f.v), Inline(v), w, f.w)
    decreases Left(h, w.seen)
  {
    hide Mass, Slots, Left;
    var f := Follow(h, v, w, lim);
    if v.Ptr? && v.id in h && h[v.id].PtrNode? && v.id !in w.seen && h[v.id].text.None? {
      var w1 := Open(Mark(w, Some(v.id)), v.id);
      LeftDrops(h, w.seen, v.id);
      FollowPaid(h, h[v.id].target, w1, lim, R);
      MassAdd(h, w.seen, v.id);
      assert Slots(h, v.id) == Inline(h[v.id].target) by { PtrSlots(h, v.id); }
    } else {
      PaidMore(h, R, if f.Settled? then 1 else Inline(v), if f.Settled? then 1 + Inline(v) else Inline(v), w, f.w);
    }
  }

  lemma PtrSlots(h: Heap, id: Id)
    requires id in h && h[id].PtrNode?
    ensures Slots(h, id) == Inline(h[id].target)
  {}

  lemma {:induction false} ValuePaid(h: Heap, v: Value, w: Walk, depth: int, lim: Limits, R: set<Id>)
    requires Closed(h, R) && RefsIn(v, R)
    ensures var r := HardenValue(h, v, w, depth, lim); Paid(h, R, Size(r.o), 1 + Inline(v), w, r.w)
    decreases Left(h, w.seen), 0, v, 2
  {
    hide Mass, Size, Inline, RefsIn, Closed, HardenReached, Follow, Left;
    FollowPaid(h, v, w, lim, R);
    var f := Follow(h, v, w, lim);
    if f.Reached? {
      ReachedPaid(h, f.v, f.w, depth, lim, R);
    }
  }

  lemma {:induction false} ReachedPaid(h: Heap, v: Value, w: Walk, depth: int, lim: Limits, R: set<Id>)
    requires Closed(h, R) && RefsIn(v, R) && !v.Ptr? && !v.NilRef?
    ensures var r := HardenReached(h, v, w, depth, lim); Paid(h, R, Size(r.o), 1 + Inline(v), w, r.w)
    decreases Left(h, w.seen), 0, v, 1
  {
    hide Mass, Left, RefsIn, Closed, HardenContainer, HardenPlain, Inline;
    if v.Bytes? || v.Map? || v.Slice? { RefsHeld(v, R); }
    var id := Identity(h, v);
    var r := HardenReached(h, v, w, depth, lim);
    if id.Some? && id.value !in w.seen && DescribedBy(h, v).None? {
      ContainerPaid(h, v, w, depth, lim, R);
    } else if id.None? && DescribedBy(h, v).None? {
      PlainPaid(h, v, w, depth, lim, R);
    } else {
      assert Size(r.o) == 1;
      PaidMore(h, R, 1, 1 + Inline(v), w, r.w);
    }
  }

  lemma {:induction false} ContainerPaid(h: Heap, v: Value, w: Walk, depth: int, lim: Limits, R: set<Id>)
    requires Closed(h, R) && RefsIn(v, R)
    requires Identity(h, v).Some? && Identity(h, v).value !in w.seen
    ensures var r := HardenContainer(h, v, w, depth, lim); Paid(h, R, Size(r.o), 1 + Inline(v), w, r.w)
    decreases Left(h, w.seen), 0, v, 0
  {
    hide Grew, HardenKeys, HardenItems, MapSum, SizeTable, Sizes, KeySlots, SeqSlots, SortedKeys, HardenString, Left,
      RefsIn;
    var r := HardenContainer(h, v, w, depth, lim);
    var w2 := Open(Mark(w, Some(v.id)), v.id);
    assert v.id in R by { RefsHeld(v, R); }
    if v.Bytes? || depth >= lim.maxDepth || (v.Map? && !h[v.id].stringKeys) {
      assert Size(r.o) == 1;
      PaidMore(h, R, 1, 1 + Inline(v), w, r.w);
    } else {
      LeftDrops(h, w.seen, v.id);
      MassAdd(h, w.seen, v.id);
      if v.Map? {
        var m := Entries(h, v.id);
        var keys := SortedKeys(Points, m.Keys);
        SortedPoints(m.Keys);
        KeysPaid(h, m, keys, Keyed(map[], {}, map[]), w2, depth, lim, R);
        EmptyEntries();
        hide Mass, Closed;
        assert Size(r.o) == 1 + SizeOfEntries(r.o.m);
      } else {
        var items := Items(h, v.id, v.len);
        ItemsPaid(h, items, w2, depth, lim, R);
        if v.len <= |h[v.id].items| { PrefixSlots(h[v.id].items, v.len); }
        hide Mass, Closed;
        assert SeqSlots(items) <= Slots(h, v.id);
        assert Size(r.o) == 1 + Sizes(r.o.items);
      }
    }
  }

  lemma RefsHeld(v: Value, R: set<Id>)
    requires RefsIn(v, R) && (v.Bytes? || v.Ptr? || v.Map? || v.Slice?)
    ensures v.id in R
  {}

  lemma {:induction false} PlainPaid(h: Heap, v: Value, w: Walk, depth: int, lim: Limits, R: set<Id>)
    requires Closed(h, R) && RefsIn(v, R)
    requires Identity(h, v).None? && DescribedBy(h, v).None? && !v.Ptr? && !v.NilRef?
    ensures var r := HardenPlain(h, v, w, depth, lim); Paid(h, R, Size(r.o), 1 + Inline(v), w, r.w)
    decreases Left(h, w.seen), 0, v, 0
  {
    hide Grew, Mass, HardenFields, HardenItems, MapSum, SizeTable, Sizes, FieldSlots, SeqSlots, HardenString, Closed,
      Left;
    var r := HardenPlain(h, v, w, depth, lim);
    if v.Array? && depth < lim.maxDepth {
      ItemsPaid(h, v.items, w, depth, lim, R);
    } else if v.Struct? && depth < lim.maxDepth {
      FieldsPaid(h, v.fields, map[], w, depth, lim, R);
      EmptyEntries();
    } else {
      EmptyEntries();
      assert Size(r.o) == 1;
      PaidMore(h, R, 1, 1 + Inline(v), w, r.w);
    }
  }

  lemma EmptyEntries()
    ensures SizeOfEntries(map[]) == 0 && Size(OMap(map[])) == 1 && Size(OList([])) == 1
  {
    var m: map<string, Out> := map[];
    assert SizeTable(OMap(m)) == map[];
  }

  lemma {:induction false} ItemsPaid(h: Heap, items: seq<Value>, w: Walk, depth: int, lim: Limits, R: set<Id>)
    requires Closed(h, R) && forall i :: 0 <= i < |items| ==> RefsIn(items[i], R)
    ensures var r := HardenItems(h, items, w, depth, lim); Paid(h, R, Sizes(r.os), SeqSlots(items), w, r.w)
    decreases Left(h, w.seen), 0, items, 0
  {
    hide Grew, Mass, Closed, RefsIn, Size, HardenValue, Inline, Left;
    if items != [] {
      ItemsUnroll(h, items, w, depth, lim);
      var a := HardenValue(h, items[0], w, depth + 1, lim);
      var b := HardenItems(h, items[1..], a.w, depth, lim);
      ValuePaid(h, items[0], w, depth + 1, lim, R);
      ItemsPaid(h, items[1..], a.w, depth, lim, R);
      hide HardenItems;
      assert ([a.o] + b.os)[1..] == b.os;
    }
  }

  lemma {:induction false} FieldsPaid(
    h: Heap, fields: seq<Field>, out: map<string, Out>, w: Walk, depth: int, lim: Limits, R: set<Id>)
    requires Closed(h, R) && forall i :: 0 <= i < |fields| ==> RefsIn(fields[i].value, R)
    ensures var r := HardenFields(h, fields, out, w, depth, lim);
      Paid(h, R, SizeOfEntries(r.o.m), SizeOfEntries(out) + FieldSlots(fields), w, r.w)
    decreases Left(h, w.seen), 0, fields, 0
  {
    hide Grew, Mass, Closed, RefsIn, SizeOfEntries, Size, HardenValue, HardenFields, Inline, Left;
    FieldsUnroll(h, fields, out, w, depth, lim);
    if fields != [] && !(lim.maxAttrs > 0 && |out| >= lim.maxAttrs) {
      var a := HardenValue(h, fields[0].value, w, depth + 1, lim);
      ValuePaid(h, fields[0].value, w, depth + 1, lim, R);
      FieldsPaid(h, fields[1..], out[fields[0].name := a.o], a.w, depth, lim, R);
      StoreGrows(out, fields[0].name, a.o);
    }
  }

  lemma {:induction false} KeysPaid(
    h: Heap, m: map<string, Value>, keys: seq<string>, acc: Keyed, w: Walk, depth: int, lim: Limits, R: set<Id>)
    requires Closed(h, R) && (forall k :: k in m ==> RefsIn(m[k], R)) && forall k :: k in keys ==> k in m
    ensures var r := HardenKeys(h, m, keys, acc, w, depth, lim);
      Paid(h, R, SizeOfEntries(r.acc.out), SizeOfEntries(acc.out) + KeySlots(m, keys), w, r.w)
    decreases Left(h, w.seen), 1, |keys|
  {
    hide Grew, Mass, Closed, RefsIn, SizeOfEntries, Size, HardenValue, HardenKeys, Inline, CleanKey, Skips, Left;
    KeysUnroll(h, m, keys, acc, w, depth, lim);
    if keys != [] {
      var k, rest := keys[0], keys[1..];
      assert k in keys;
      if Skips(acc, k, lim) {
        KeysPaid(h, m, rest, acc, w, depth, lim, R);
      } else {
        var a := HardenValue(h, m[k], w, depth + 1, lim);
        ValuePaid(h, m[k], w, depth + 1, lim, R);
        KeysPaid(h, m, rest, Store(acc, k, a.o, w), a.w, depth, lim, R);
        StoreGrows(acc.out, CleanKey(k), a.o);
      }
    }
  }

  /** The output has at most one node more than v and the references reachable from it have child slots. */
  lemma OutputBound(h: Heap, v: Value, lim: Limits, R: set<Id>)
    requires Closed(h, R) && RefsIn(v, R)
    ensures Size(Hardened(h, v, lim).o) <= 1 + Inline(v) + Mass(h, R)
    ensures Hardened(h, v, lim).w.seen <= R
  {
    var w := Walk({}, []);
    ValuePaid(h, v, w, 0, lim, R);
    assert w.seen + R == R;
    MassMonotone(h, Hardened(h, v, lim).w.seen, R);
  }
}
