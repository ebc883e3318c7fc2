/** What sharing costs a map entry: a reference crossed anywhere before collapses to the sentinel, so a kept
    entry can lose its contents to a key that was itself left out (go/harden.go:345-377). */
module HardenShared {
  import opened Common
  import opened Ordering
  import opened Harden
  import opened HardenKeys

  // ---- the references on a value's own way --------------------------------------------------------

  predicate LivePtr(h: Heap, v: Value) { v.Ptr? && v.id in h && h[v.id].PtrNode? }

  /** The pointers followed from v, own being those followed already; a pointer met again, or one whose type
      describes itself, is the last. */
  ghost function Ptrs(h: Heap, v: Value, own: set<Id>): seq<Id>
    decreases Left(h, own)
  {
    if !LivePtr(h, v) then []
    else if v.id in own || h[v.id].text.Some? then [v.id]
    else
      LeftDrops(h, own, v.id);
      [v.id] + Ptrs(h, h[v.id].target, own + {v.id})
  }

  /** Where the pointers lead, unless to nil, to a text or around in a circle. */
  ghost function Destination(h: Heap, v: Value, own: set<Id>): Option<Value>
    decreases Left(h, own)
  {
    if v.NilRef? || (v.Ptr? && !LivePtr(h, v)) then None
    else if !v.Ptr? then Some(v)
    else if v.id in own || h[v.id].text.Some? then None
    else
      LeftDrops(h, own, v.id);
      Destination(h, h[v.id].target, own + {v.id})
  }

  /** Every reference that must be crossed to see what v holds: its pointers, then its map or slice. */
  ghost function Route(h: Heap, v: Value): seq<Id> {
    var d := Destination(h, v, {});
    Ptrs(h, v, {}) + if d.Some? && Identity(h, d.value).Some? then [Identity(h, d.value).value] else []
  }

  /** v leads to a map with string keys, a list or a struct, and the depth cap leaves room for it. */
  ghost predicate Expandable(h: Heap, v: Value, depth: int, lim: Limits) {
    var d := Destination(h, v, {});
    && d.Some? && DescribedBy(h, d.value).None? && depth < lim.maxDepth
    && (d.value.Slice? || d.value.Array? || d.value.Struct? || (d.value.Map? && TextKeys(h, d.value.id)))
  }

  predicate TextKeys(h: Heap, id: Id) { id in h && h[id].MapNode? ==> h[id].stringKeys }

  lemma {:induction false} PtrsAreNodes(h: Heap, v: Value, own: set<Id>)
    ensures forall id :: id in Ptrs(h, v, own) ==> id in h && h[id].PtrNode?
    decreases Left(h, own)
  {
    if LivePtr(h, v) && v.id !in own && h[v.id].text.None? {
      LeftDrops(h, own, v.id);
      PtrsAreNodes(h, h[v.id].target, own + {v.id});
    }
  }

  predicate Meets(route: seq<Id>, seen: set<Id>) { exists id :: id in route && id in seen }

  /** Following v's pointers under a walk ends at the first one crossed before the walk came to v, and
      otherwise at the destination with all of them crossed. */
  lemma {:induction false} FollowDecides(h: Heap, v: Value, w: Walk, own: set<Id>, before: set<Id>, lim: Limits)
    requires Destination(h, v, own).Some? && w.seen == before + own
    ensures var f := Follow(h, v, w, lim); var ps := Ptrs(h, v, own);
      if Meets(ps, before) then f.Settled? && f.o == OStr(REDACTED)
      else f.Reached? && f.v == Destination(h, v, own).value && f.w.seen == w.seen + (set id | id in ps)
    decreases Left(h, own)
  {
    if v.Ptr? {
      var rest := Ptrs(h, h[v.id].target, own + {v.id});
      LeftDrops(h, own, v.id);
      assert Ptrs(h, v, own) == [v.id] + rest;
      assert Meets(Ptrs(h, v, own), before) <==> v.id in before || Meets(rest, before);
      if v.id !in before {
        var w1 := Open(Mark(w, Some(v.id)), v.id);
        assert w1.seen == before + (own + {v.id});
        FollowDecides(h, h[v.id].target, w1, own + {v.id}, before, lim);
      }
    }
  }

  /** What is reached, once its own reference is not a repeat, is expanded. */
  lemma ReachedExpands(h: Heap, d: Value, w: Walk, depth: int, lim: Limits)
    requires DescribedBy(h, d).None? && depth < lim.maxDepth
    requires d.Slice? || d.Array? || d.Struct? || (d.Map? && TextKeys(h, d.id))
    ensures var o := HardenReached(h, d, w, depth, lim).o;
      if Identity(h, d).Some? && Identity(h, d).value in w.seen then o == OStr(REDACTED) else o.OMap? || o.OList?
  {
    hide HardenItems, HardenFields, HardenSorted, Grew;
  }

  /** A value that can be expanded comes out as the sentinel if and only if one of the references on its way
      was crossed before. */
  lemma SentinelIff(h: Heap, v: Value, w: Walk, depth: int, lim: Limits)
    requires Expandable(h, v, depth, lim)
    ensures HardenValue(h, v, w, depth, lim).o == OStr(REDACTED) <==> Meets(Route(h, v), w.seen)
  {
    hide HardenReached, Follow, Grew, Ptrs, Destination;
    var d, ps := Destination(h, v, {}).value, Ptrs(h, v, {});
    assert w.seen == w.seen + {};
    FollowDecides(h, v, w, {}, w.seen, lim);
    PtrsAreNodes(h, v, {});
    var f := Follow(h, v, w, lim);
    if Meets(ps, w.seen) {
      var id :| id in ps && id in w.seen;
      assert id in Route(h, v);
    } else {
      ReachedExpands(h, d, f.w, depth, lim);
      assert Identity(h, d).Some? ==> Identity(h, d).value !in ps;
      assert forall id :: id in Route(h, v) <==> id in ps || Identity(h, d) == Some(id);
      assert Identity(h, d).Some? ==> (Identity(h, d).value in f.w.seen <==> Identity(h, d).value in w.seen);
    }
  }

  // ---- what the loop has crossed before a key -----------------------------------------------------

  /** The loop visited keys[j] and crossed id for the first time there, whether or not the entry was kept. */
  ghost predicate CrossedUnder(
    h: Heap, m: map<string, Value>, keys: seq<string>, j: nat, w: Walk, depth: int, lim: Limits, id: Id)
    requires j < |keys| && forall k :: k in keys ==> k in m
  {
    var b := AtKey(h, m, keys, j, w, depth, lim);
    && !Skips(b.acc, keys[j], lim) && id !in b.w.seen
    && id in HardenValue(h, m[keys[j]], b.w, depth + 1, lim).w.seen
  }

  lemma {:induction false} SeenBefore(
    h: Heap, m: map<string, Value>, keys: seq<string>, i: nat, w: Walk, depth: int, lim: Limits, id: Id)
    requires i <= |keys| && forall k :: k in keys ==> k in m
    ensures id in AtKey(h, m, keys, i, w, depth, lim).w.seen <==>
      id in w.seen || exists j :: 0 <= j < i && CrossedUnder(h, m, keys, j, w, depth, lim, id)
    decreases i
  {
    hide HardenValue, Skips, Harden.HardenKeys;
    if i == 0 {
      assert keys[..0] == [];
      KeysUnroll(h, m, [], Nothing, w, depth, lim);
    } else {
      SeenBefore(h, m, keys, i - 1, w, depth, lim, id);
      AtNextKey(h, m, keys, i - 1, w, depth, lim);
      var b := AtKey(h, m, keys, i - 1, w, depth, lim);
      var a := HardenValue(h, m[keys[i - 1]], b.w, depth + 1, lim);
      hide AtKey;
      assert b.w.seen <= a.w.seen;
      assert CrossedUnder(h, m, keys, i - 1, w, depth, lim, id) <==>
        !Skips(b.acc, keys[i - 1], lim) && id !in b.w.seen && id in a.w.seen;
    }
  }

  /** A kept entry that could be expanded is the sentinel if and only if a reference on its way was crossed
      before the map, or under a key the loop visited earlier; keys whose entries were discarded count. */
  lemma LostToSharing(h: Heap, m: map<string, Value>, w: Walk, depth: int, lim: Limits, n: string, i: nat)
    requires var keys := SortedKeys(Points, m.Keys);
      && (forall k :: k in keys ==> k in m) && n in HardenSorted(h, m, w, depth, lim).acc.out
      && i < |keys| && keys[i] == Pick(keys, n) && Expandable(h, m[keys[i]], depth + 1, lim)
    ensures var keys := SortedKeys(Points, m.Keys);
      HardenSorted(h, m, w, depth, lim).acc.out[n] == OStr(REDACTED) <==>
        exists id :: id in Route(h, m[keys[i]]) &&
          (id in w.seen || exists j :: 0 <= j < i && CrossedUnder(h, m, keys, j, w, depth, lim, id))
  {
    hide HardenSorted, SortedKeys, Pick, Route, Expandable, HardenValue, AtKey, CrossedUnder;
    var keys := SortedKeys(Points, m.Keys);
    var out := HardenSorted(h, m, w, depth, lim).acc.out;
    SortedIsAtKey(h, m, w, depth, lim);
    MapKeepsFirstNames(h, m, w, depth, lim);
    var j :| 0 <= j < |keys| && keys[j] == Pick(keys, n) && HardenedAt(h, m, keys, j, w, depth, lim, out[n]);
    assert j == i;
    var b := AtKey(h, m, keys, i, w, depth, lim);
    SentinelIff(h, m[keys[i]], b.w, depth + 1, lim);
    forall id ensures id in b.w.seen <==>
      id in w.seen || exists j :: 0 <= j < i && CrossedUnder(h, m, keys, j, w, depth, lim, id)
    {
      SeenBefore(h, m, keys, i, w, depth, lim, id);
    }
  }

  // ---- an entry whose contents appear nowhere -----------------------------------------------------

  const SANITIZED := "\U{0001}a"

  /** One map under two keys that clean to the same name. */
  const Twice: map<string, Value> := map[SANITIZED := Map(0), "a" := Map(0)]
  const Shared: Heap := map[0 := MapNode(true, map["x" := Bool(true)], None), 1 := MapNode(true, Twice, None)]

  /** A map met for the first time is expanded, and crossed. */
  lemma MapEntered(h: Heap, id: Id, w: Walk, depth: int, lim: Limits)
    requires id in h && h[id].MapNode? && h[id].stringKeys && h[id].text.None? && h[id].entries != map[]
    requires id !in w.seen && depth < lim.maxDepth
    ensures var r := HardenSorted(h, h[id].entries, Open(Mark(w, Some(id)), id), depth, lim);
      HardenValue(h, Map(id), w, depth, lim) == Res(OMap(r.acc.out), r.w) && id in r.w.seen
  {
    hide HardenSorted, Grew;
    var v := Map(id);
    var r := HardenSorted(h, h[id].entries, Open(Mark(w, Some(id)), id), depth, lim);
    assert Follow(h, v, w, lim) == Reached(v, w);
    assert Identity(h, v) == Some(id) && DescribedBy(h, v).None?;
    assert HardenReached(h, v, w, depth, lim) == HardenContainer(h, v, w, depth, lim);
    assert HardenContainer(h, v, w, depth, lim) == Res(OMap(r.acc.out), r.w);
    GrewSeen(Open(Mark(w, Some(id)), id), r.w);
  }

  lemma TwiceOrder()
    ensures SortedKeys(Points, Twice.Keys) == [SANITIZED, "a"]
  {
    hide SortedKeys;
    EncodingsInjective();
    SortedPoints(Twice.Keys);
    var s, t := SortedKeys(Points, Twice.Keys), [SANITIZED, "a"];
    assert Points(SANITIZED) == [1, 97] && Points("a") == [97] by {
      assert SANITIZED[1..] == "a" && "a"[1..] == "";
    }
    assert Compare([1, 97], [97]) < 0;
    assert Ascending(Points, t);
    assert forall x :: x in t <==> x in Twice.Keys;
    hide Points;
    AscendingUnique(Points, s, t);
  }

  lemma TwiceNames(lim: Limits)
    ensures var keys := [SANITIZED, "a"];
      Kept(keys, lim) == ["a"] && Pick(keys, "a") == "a" && !Skips(Nothing, SANITIZED, lim)
  {
    assert CleanKey(SANITIZED) == "a" && CleanKey("a") == "a" by {
      assert SANITIZED[1..] == "a" && "a"[1..] == "";
    }
    hide CleanKey;
    NoNames(lim);
    NamesSnoc([], SANITIZED);
    NamesSnoc([SANITIZED], "a");
    assert [] + [SANITIZED] == [SANITIZED] && [SANITIZED] + ["a"] == [SANITIZED, "a"];
  }

  /** The sanitized key is hardened first and then discarded for the untouched key of the same name, whose
      value is the same map: the entry comes out as the sentinel, and the map's contents appear nowhere. */
  lemma ReclaimedNameLosesItsMap(lim: Limits)
    requires lim.maxDepth >= 2
    ensures Hardened(Shared, Map(1), lim).o == OMap(map["a" := OStr(REDACTED)])
  {
    hide SortedKeys, HardenSorted, HardenValue, Harden.HardenKeys, Kept, Names, Pick, Skips, Grew, CleanKey, Points;
    var w0 := Walk({}, []);
    var w := Open(Mark(w0, Some(1)), 1);
    assert "a" in Shared[1].entries;
    MapEntered(Shared, 1, w0, 0, lim);
    TwiceOrder();
    TwiceNames(lim);
    MapKeepsFirstNames(Shared, Twice, w, 0, lim);
    var keys := SortedKeys(Points, Twice.Keys);
    var out := HardenSorted(Shared, Twice, w, 0, lim).acc.out;
    assert "a" in out && out.Keys == {"a"};
    SanitizedCrosses(keys, w, lim);
    SharedMapIsOneStep(lim);
    LostToSharing(Shared, Twice, w, 0, lim, "a", 1);
    assert out == map["a" := OStr(REDACTED)];
  }

  lemma SanitizedCrosses(keys: seq<string>, w: Walk, lim: Limits)
    requires keys == [SANITIZED, "a"] && 0 !in w.seen && lim.maxDepth >= 2
    ensures CrossedUnder(Shared, Twice, keys, 0, w, 0, lim, 0)
  {
    hide HardenValue, Harden.HardenKeys, HardenSorted, Skips, Grew;
    assert keys[..0] == [];
    KeysUnroll(Shared, Twice, [], Nothing, w, 0, lim);
    TwiceNames(lim);
    assert "x" in Shared[0].entries;
    MapEntered(Shared, 0, w, 1, lim);
  }

  lemma SharedMapIsOneStep(lim: Limits)
    requires lim.maxDepth >= 2
    ensures Expandable(Shared, Map(0), 1, lim) && 0 in Route(Shared, Map(0))
  {
    assert Destination(Shared, Map(0), {}) == Some(Map(0));
    assert "x" in Entries(Shared, 0);
    assert Identity(Shared, Map(0)) == Some(0);
  }
}
