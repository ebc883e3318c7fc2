/** When hardening writes a value out in full. The references of a value are read off the value itself, in the
    order the walk comes to them; what decides is whether one of them is come to twice (go/harden.go:97-189). */
module HardenPlaces {
  import opened Common
  import opened Ordering
  import opened Harden
  import opened HardenKeys
  import opened HardenShared
  import opened HardenUnfold

  /** An occurrence of a reference. cut: what is written for it in the unfolding is the sentinel anyway. kept:
      what is written for it is part of the output, rather than replaced by a later entry of the same name. */
  datatype Place = Place(id: Id, cut: bool, kept: bool)

  predicate HeadKept(list: bool, kids: seq<Kid>)
    requires kids != []
  {
    list || forall i :: 1 <= i < |kids| ==> kids[i].name != kids[0].name
  }

  function Ids(ps: seq<Place>): set<Id> { set p | p in ps :: p.id }

  function Also(once: bool, seen: set<Id>, more: set<Id>): set<Id> { if once then seen + more else seen }

  ghost predicate Written(h: Heap, v: Value, path: set<Id>, depth: int, lim: Limits) {
    Unfold(h, v, path, depth, lim) != OStr(REDACTED)
  }

  /** The occurrences of references in v, in walk order. With once, a reference come to before is listed and
      not entered again; without, it is entered wherever it is not open on its own way down. */
  ghost function Reads(
    h: Heap, v: Value, once: bool, seen: set<Id>, path: set<Id>, depth: int, lim: Limits, live: bool): seq<Place>
    decreases Left(h, path), 2 * Nest(v), 0
  {
    if v.NilRef? || (v.Ptr? && !LivePtr(h, v)) then []
    else if v.Ptr? then
      var p := Place(v.id, !Written(h, v, path, depth, lim), live);
      if v.id in seen || v.id in path || h[v.id].text.Some? then [p]
      else
        LeftDrops(h, path, v.id);
        [p] + Reads(h, h[v.id].target, once, Also(once, seen, {v.id}), path + {v.id}, depth, lim, live)
    else
      var id := Identity(h, v);
      var here := if id.Some? then [Place(id.value, !Written(h, v, path, depth, lim), live)] else [];
      if (id.Some? && (id.value in seen || id.value in path)) || Flat(h, v, depth, lim).Some? then here
      else
        var kids := Kids(h, v, lim);
        if id.Some? then
          OpenedLeft(h, v, path, depth, lim);
          here + ReadKids(h, IsList(v), kids, once, Also(once, seen, {id.value}), path + {id.value}, depth + 1, lim,
            live)
        else
          KidsNest(h, v, depth, lim);
          ReadKids(h, IsList(v), kids, once, seen, path, depth + 1, lim, live)
  }

  ghost function ReadKids(
    h: Heap, list: bool, kids: seq<Kid>, once: bool, seen: set<Id>, path: set<Id>, depth: int, lim: Limits, live: bool)
    : seq<Place>
    decreases Left(h, path), 2 * NestKids(kids) + 1, |kids|
  {
    if kids == [] then []
    else
      var a := Reads(h, kids[0].value, once, seen, path, depth, lim, live && HeadKept(list, kids));
      a + ReadKids(h, list, kids[1..], once, Also(once, seen, Ids(a)), path, depth, lim, live)
  }

  /** Every reference in the order the walk first comes to it, and each later meeting. */
  ghost function Visits(h: Heap, v: Value, lim: Limits): seq<Place> { Reads(h, v, true, {}, {}, 0, lim, true) }

  /** Every place of the unfolding where a reference stands. */
  ghost function Places(h: Heap, v: Value, lim: Limits): seq<Place> { Reads(h, v, false, {}, {}, 0, lim, true) }

  /** A reference in `seen`, or come to earlier in ps, stands at a kept place where it would have been written. */
  ghost predicate Loses(ps: seq<Place>, seen: set<Id>) { exists j :: 0 <= j < |ps| && LosesAt(ps, seen, j) }

  predicate LosesAt(ps: seq<Place>, seen: set<Id>, j: nat)
    requires j < |ps|
  {
    ps[j].kept && !ps[j].cut && (ps[j].id in seen || exists i :: 0 <= i < j && ps[i].id == ps[j].id)
  }

  // ---- reading by cases ---------------------------------------------------------------------------

  lemma ReadPointer(
    h: Heap, v: Value, once: bool, seen: set<Id>, path: set<Id>, depth: int, lim: Limits, live: bool)
    requires v.Ptr? || v.NilRef?
    ensures Reads(h, v, once, seen, path, depth, lim, live) ==
      if !LivePtr(h, v) then []
      else
        var p := Place(v.id, !Written(h, v, path, depth, lim), live);
        if v.id in seen || v.id in path || h[v.id].text.Some? then [p]
        else [p] + Reads(h, h[v.id].target, once, Also(once, seen, {v.id}), path + {v.id}, depth, lim, live)
  {
    if LivePtr(h, v) && v.id !in path { LeftDrops(h, path, v.id); }
    hide Left, Written;
  }

  lemma ReadReached(
    h: Heap, v: Value, once: bool, seen: set<Id>, path: set<Id>, depth: int, lim: Limits, live: bool)
    requires !v.Ptr? && !v.NilRef?
    ensures var id := Identity(h, v);
      var here := if id.Some? then [Place(id.value, !Written(h, v, path, depth, lim), live)] else [];
      Reads(h, v, once, seen, path, depth, lim, live) ==
        if (id.Some? && (id.value in seen || id.value in path)) || Flat(h, v, depth, lim).Some? then here
        else
          here + ReadKids(h, IsList(v), Kids(h, v, lim), once,
            if id.Some? then Also(once, seen, {id.value}) else seen, With(path, id), depth + 1, lim, live)
  {
    hide Kids, ReadKids, Flat, Left, Nest, NestKids, Written;
    var id := Identity(h, v);
    if (id.Some? ==> id.value !in path) && Flat(h, v, depth, lim).None? {
      if id.Some? { OpenedLeft(h, v, path, depth, lim); } else { KidsNest(h, v, depth, lim); }
    }
  }

  // ---- losing, piece by piece ---------------------------------------------------------------------

  lemma LosesJoin(a: seq<Place>, b: seq<Place>, seen: set<Id>)
    ensures Loses(a + b, seen) <==> Loses(a, seen) || Loses(b, seen + Ids(a))
    ensures Ids(a + b) == Ids(a) + Ids(b)
  {
    var ps := a + b;
    forall j | 0 <= j < |a| ensures LosesAt(ps, seen, j) <==> LosesAt(a, seen, j) {
      assert ps[..j] == a[..j];
      assert forall i :: 0 <= i < j ==> ps[i] == a[i];
    }
    forall j | 0 <= j < |b| ensures LosesAt(ps, seen, |a| + j) <==> LosesAt(b, seen + Ids(a), j) {
      LosesShift(a, b, seen, j);
    }
    if Loses(ps, seen) {
      var j :| 0 <= j < |ps| && LosesAt(ps, seen, j);
      if j >= |a| { assert LosesAt(b, seen + Ids(a), j - |a|); }
    }
    if Loses(b, seen + Ids(a)) {
      var j :| 0 <= j < |b| && LosesAt(b, seen + Ids(a), j);
      assert LosesAt(ps, seen, |a| + j);
    }
    if Loses(a, seen) {
      var j :| 0 <= j < |a| && LosesAt(a, seen, j);
      assert LosesAt(ps, seen, j);
    }
  }

  lemma LosesShift(a: seq<Place>, b: seq<Place>, seen: set<Id>, j: nat)
    requires j < |b|
    ensures LosesAt(a + b, seen, |a| + j) <==> LosesAt(b, seen + Ids(a), j)
  {
    var ps, id := a + b, b[j].id;
    if i :| 0 <= i < |a| + j && ps[i].id == id {
      if i < |a| { assert a[i] in a && id in Ids(a); } else { assert b[i - |a|].id == id; }
    }
    if id in Ids(a) {
      var p :| p in a && p.id == id;
      var i :| 0 <= i < |a| && a[i] == p;
      assert ps[i].id == id;
    }
    if i :| 0 <= i < j && b[i].id == id { assert ps[|a| + i].id == id; }
  }

  lemma LosesOne(p: Place, seen: set<Id>)
    ensures Loses([p], seen) <==> p.kept && !p.cut && p.id in seen
    ensures Ids([p]) == {p.id}
  {
    assert LosesAt([p], seen, 0) <==> p.kept && !p.cut && p.id in seen;
  }

  lemma LosesNone(seen: set<Id>)
    ensures !Loses([], seen) && Ids([]) == {}
  {}

  lemma LosesMore(ps: seq<Place>, seen: set<Id>, more: set<Id>)
    requires seen <= more && Loses(ps, seen)
    ensures Loses(ps, more)
  {
    var j :| 0 <= j < |ps| && LosesAt(ps, seen, j);
    assert LosesAt(ps, more, j);
  }

  // ---- outputs that agree where they are kept -----------------------------------------------------

  predicate KeptAgree(list: bool, kids: seq<Kid>, s: seq<Out>, t: seq<Out>)
    requires |s| == |t| == |kids|
  {
    kids == [] || ((HeadKept(list, kids) ==> s[0] == t[0]) && KeptAgree(list, kids[1..], s[1..], t[1..]))
  }

  predicate Named(kids: seq<Kid>, n: string) { exists i :: 0 <= i < |kids| && kids[i].name == n }

  lemma {:induction false} StoresAgreeIff(
    kids: seq<Kid>, s: seq<Out>, t: seq<Out>, c: map<string, Out>, d: map<string, Out>)
    requires |s| == |t| == |kids| && c.Keys == d.Keys
    ensures StoreAll(kids, s, c) == StoreAll(kids, t, d) <==>
      KeptAgree(false, kids, s, t) && forall n :: n in c && !Named(kids, n) ==> c[n] == d[n]
  {
    if kids == [] {
      assert forall n :: !Named(kids, n);
    } else {
      var n0, rest := kids[0].name, kids[1..];
      var c', d' := c[n0 := s[0]], d[n0 := t[0]];
      StoresAgreeIff(rest, s[1..], t[1..], c', d');
      forall n ensures Named(kids, n) <==> n == n0 || Named(rest, n) { NamedFirst(kids, n); }
      assert HeadKept(false, kids) <==> !Named(rest, n0) by { HeadKeptNamed(kids); }
      hide Named, HeadKept, StoreAll;
      if forall n :: n in c' && !Named(rest, n) ==> c'[n] == d'[n] {
        assert n0 in c';
        forall n | n in c && !Named(kids, n) ensures c[n] == d[n] { assert n in c' && c'[n] == c[n]; }
      }
    }
  }

  lemma NamedFirst(kids: seq<Kid>, n: string)
    requires kids != []
    ensures Named(kids, n) <==> n == kids[0].name || Named(kids[1..], n)
  {
    if i :| 0 <= i < |kids| && kids[i].name == n {
      if i > 0 { assert kids[1..][i - 1].name == n; }
    }
    if i :| 0 <= i < |kids[1..]| && kids[1..][i].name == n { assert kids[i + 1].name == n; }
    if n == kids[0].name { assert kids[0].name == n; }
  }

  lemma HeadKeptNamed(kids: seq<Kid>)
    requires kids != []
    ensures HeadKept(false, kids) <==> !Named(kids[1..], kids[0].name)
  {
    if i :| 1 <= i < |kids| && kids[i].name == kids[0].name { assert kids[1..][i - 1].name == kids[0].name; }
    if i :| 0 <= i < |kids[1..]| && kids[1..][i].name == kids[0].name { assert kids[i + 1].name == kids[0].name; }
  }

  lemma {:induction false} ListsAgreeIff(kids: seq<Kid>, s: seq<Out>, t: seq<Out>)
    requires |s| == |t| == |kids|
    ensures s == t <==> KeptAgree(true, kids, s, t)
  {
    if kids != [] {
      ListsAgreeIff(kids[1..], s[1..], t[1..]);
      assert s == [s[0]] + s[1..] && t == [t[0]] + t[1..];
    }
  }

  lemma BuildAgreeIff(list: bool, kids: seq<Kid>, s: seq<Out>, t: seq<Out>)
    requires |s| == |t| == |kids|
    ensures Build(list, kids, s) == Build(list, kids, t) <==> KeptAgree(list, kids, s, t)
  {
    if list {
      ListsAgreeIff(kids, s, t);
    } else {
      StoresAgreeIff(kids, s, t, map[], map[]);
    }
  }

  // ---- hardening against the unfolding ------------------------------------------------------------

  /** Hardening crosses exactly the references read, and writes the unfolding exactly if the reading loses
      nothing. */
  lemma {:induction false} ValueVisits(h: Heap, v: Value, w: Walk, path: set<Id>, depth: int, lim: Limits, live: bool)
    requires path <= w.seen
    ensures var ps := Reads(h, v, true, w.seen, path, depth, lim, live);
      var r := HardenValue(h, v, w, depth, lim);
      r.w.seen == w.seen + Ids(ps) &&
      (live ==> (r.o == Unfold(h, v, path, depth, lim) <==> !Loses(ps, w.seen)))
    decreases Left(h, path), 2 * Nest(v), 1
  {
    hide HardenValue, Unfold, Reads, Left, Nest, Grew, Loses, Ids, Flat, Kids, Build;
    LosesNone(w.seen);
    if v.Ptr? || v.NilRef? {
      PointerStep(h, v, w, depth, lim);
      UnfoldPointer(h, v, path, depth, lim);
      ReadPointer(h, v, true, w.seen, path, depth, lim, live);
      if LivePtr(h, v) {
        var p := Place(v.id, !Written(h, v, path, depth, lim), live);
        LosesOne(p, w.seen);
        if v.id !in w.seen && h[v.id].text.None? {
          ValueVisits(h, h[v.id].target, Entered(w, Some(v.id)), path + {v.id}, depth, lim, live);
          LosesJoin([p], Reads(h, h[v.id].target, true, w.seen + {v.id}, path + {v.id}, depth, lim, live), w.seen);
        }
      }
    } else {
      ReachedVisits(h, v, w, path, depth, lim, live);
    }
  }

  lemma {:induction false} ReachedVisits(h: Heap, v: Value, w: Walk, path: set<Id>, depth: int, lim: Limits, live: bool)
    requires path <= w.seen && !v.Ptr? && !v.NilRef?
    ensures var ps := Reads(h, v, true, w.seen, path, depth, lim, live);
      var r := HardenValue(h, v, w, depth, lim);
      r.w.seen == w.seen + Ids(ps) &&
      (live ==> (r.o == Unfold(h, v, path, depth, lim) <==> !Loses(ps, w.seen)))
    decreases Left(h, path), 2 * Nest(v), 0
  {
    hide HardenValue, HardenItems, Unfold, UnfoldKids, Reads, ReadKids, Left, Nest, NestKids, Grew, Loses, Ids, Flat,
      Kids, Build;
    LosesNone(w.seen);
    var id := Identity(h, v);
    ReachedStep(h, v, w, depth, lim);
    UnfoldReached(h, v, path, depth, lim);
    ReadReached(h, v, true, w.seen, path, depth, lim, live);
    var here := if id.Some? then [Place(id.value, !Written(h, v, path, depth, lim), live)] else [];
    if id.Some? { LosesOne(here[0], w.seen); }
    if !(id.Some? && id.value in w.seen) && Flat(h, v, depth, lim).None? {
      var kids, w' := Kids(h, v, lim), Entered(w, id);
      KidsVisits(h, IsList(v), kids, w', With(path, id), depth, lim, live);
      var ps := ReadKids(h, IsList(v), kids, true, w'.seen, With(path, id), depth + 1, lim, live);
      LosesJoin(here, ps, w.seen);
      assert w'.seen == w.seen + Ids(here);
      BuildAgreeIff(IsList(v), kids, HardenItems(h, Values(kids), w', depth, lim).os,
        UnfoldKids(h, kids, With(path, id), depth + 1, lim));
    }
  }

  lemma {:induction false} KidsVisits(
    h: Heap, list: bool, kids: seq<Kid>, w: Walk, path: set<Id>, depth: int, lim: Limits, live: bool)
    requires path <= w.seen
    ensures var ps := ReadKids(h, list, kids, true, w.seen, path, depth + 1, lim, live);
      var r := HardenItems(h, Values(kids), w, depth, lim);
      |r.os| == |kids| && r.w.seen == w.seen + Ids(ps) &&
      (live ==> (KeptAgree(list, kids, r.os, UnfoldKids(h, kids, path, depth + 1, lim)) <==> !Loses(ps, w.seen)))
    decreases Left(h, path), 2 * NestKids(kids) + 1, |kids|
  {
    hide HardenValue, HardenItems, Unfold, Reads, Left, Nest, Grew, Loses, Ids, HeadKept;
    if kids == [] {
      NoItems(h, w, depth, lim);
      LosesNone(w.seen);
    } else {
      FirstKid(h, kids, w, depth, lim);
      var kept := live && HeadKept(list, kids);
      var a := HardenValue(h, kids[0].value, w, depth + 1, lim);
      ValueVisits(h, kids[0].value, w, path, depth + 1, lim, kept);
      KidsVisits(h, list, kids[1..], a.w, path, depth, lim, live);
      var ps := Reads(h, kids[0].value, true, w.seen, path, depth + 1, lim, kept);
      LosesJoin(ps, ReadKids(h, list, kids[1..], true, a.w.seen, path, depth + 1, lim, live), w.seen);
      if !kept { DeadLosesNothing(h, kids[0].value, true, w.seen, path, depth + 1, lim, w.seen); }
    }
  }

  /** What is not kept loses nothing. */
  lemma {:induction false} DeadReads(
    h: Heap, v: Value, once: bool, seen: set<Id>, path: set<Id>, depth: int, lim: Limits)
    ensures forall p :: p in Reads(h, v, once, seen, path, depth, lim, false) ==> !p.kept
    decreases Left(h, path), 2 * Nest(v), 0
  {
    hide Unfold, Left, Nest, NestKids, Flat, Kids, Written;
    var id := Identity(h, v);
    if LivePtr(h, v) && v.id !in seen && v.id !in path && h[v.id].text.None? {
      LeftDrops(h, path, v.id);
      DeadReads(h, h[v.id].target, once, Also(once, seen, {v.id}), path + {v.id}, depth, lim);
    } else if !v.Ptr? && !v.NilRef? && Flat(h, v, depth, lim).None? &&
      (id.Some? ==> id.value !in seen && id.value !in path) {
      UnfoldReached(h, v, path, depth, lim);
      DeadKids(h, IsList(v), Kids(h, v, lim), once, if id.Some? then Also(once, seen, {id.value}) else seen,
        With(path, id), depth + 1, lim);
    }
    if v.Ptr? || v.NilRef? { ReadPointer(h, v, once, seen, path, depth, lim, false); }
    else { ReadReached(h, v, once, seen, path, depth, lim, false); }
    hide Reads;
  }

  lemma {:induction false} DeadKids(
    h: Heap, list: bool, kids: seq<Kid>, once: bool, seen: set<Id>, path: set<Id>, depth: int, lim: Limits)
    ensures forall p :: p in ReadKids(h, list, kids, once, seen, path, depth, lim, false) ==> !p.kept
    decreases Left(h, path), 2 * NestKids(kids) + 1, |kids|
  {
    hide Reads, Left, Nest, HeadKept, Ids;
    if kids != [] {
      DeadReads(h, kids[0].value, once, seen, path, depth, lim);
      var a := Reads(h, kids[0].value, once, seen, path, depth, lim, false);
      DeadKids(h, list, kids[1..], once, Also(once, seen, Ids(a)), path, depth, lim);
    }
  }

  lemma DeadLosesNothing(
    h: Heap, v: Value, once: bool, seen: set<Id>, path: set<Id>, depth: int, lim: Limits, before: set<Id>)
    ensures !Loses(Reads(h, v, once, seen, path, depth, lim, false), before)
  {
    hide Reads;
    DeadReads(h, v, once, seen, path, depth, lim);
  }

  /** A value is written out in full if and only if no reference come to a second time stands at a kept place
      where it would have been written. */
  lemma InFullIff(h: Heap, v: Value, lim: Limits)
    ensures Hardened(h, v, lim).o == Unfolded(h, v, lim) <==> !Loses(Visits(h, v, lim), {})
  {
    hide HardenValue, Unfold, Reads, Loses;
    ValueVisits(h, v, Walk({}, []), {}, 0, lim, true);
  }

  // ---- places of the unfolding --------------------------------------------------------------------

  /** Reading once lists no more references than reading everywhere, and loses no more. */
  lemma {:induction false} PlacesLose(
    h: Heap, v: Value, seen: set<Id>, path: set<Id>, depth: int, lim: Limits, live: bool, few: set<Id>, many: set<Id>)
    requires few <= many
    ensures var a, b := Reads(h, v, true, seen, path, depth, lim, live), Reads(h, v, false, {}, path, depth, lim, live);
      Ids(a) <= Ids(b) && (Loses(a, few) ==> Loses(b, many))
    decreases Left(h, path), 2 * Nest(v), 0
  {
    hide Unfold, Reads, ReadKids, Left, Nest, NestKids, Loses, Ids, Flat, Kids, Written;
    LosesNone(few);
    if v.Ptr? || v.NilRef? {
      ReadPointer(h, v, true, seen, path, depth, lim, live);
      ReadPointer(h, v, false, {}, path, depth, lim, live);
      if LivePtr(h, v) {
        var p := Place(v.id, !Written(h, v, path, depth, lim), live);
        LosesOne(p, few);
        LosesOne(p, many);
        if v.id !in path && h[v.id].text.None? {
          UnfoldPointer(h, v, path, depth, lim);
          var t, inner := h[v.id].target, path + {v.id};
          LosesJoin([p], Reads(h, t, false, {}, inner, depth, lim, live), many);
          if v.id !in seen {
            LosesJoin([p], Reads(h, t, true, seen + {v.id}, inner, depth, lim, live), few);
            PlacesLose(h, t, seen + {v.id}, inner, depth, lim, live, few + {v.id}, many + {v.id});
          }
        }
      }
    } else {
      ReadReached(h, v, true, seen, path, depth, lim, live);
      ReadReached(h, v, false, {}, path, depth, lim, live);
      UnfoldReached(h, v, path, depth, lim);
      var id, kids, inner := Identity(h, v), Kids(h, v, lim), With(path, Identity(h, v));
      var here := if id.Some? then [Place(id.value, !Written(h, v, path, depth, lim), live)] else [];
      if id.Some? {
        LosesOne(here[0], few);
        LosesOne(here[0], many);
      }
      if !(id.Some? && id.value in path) && Flat(h, v, depth, lim).None? {
        LosesJoin(here, ReadKids(h, IsList(v), kids, false, {}, inner, depth + 1, lim, live), many);
        if !(id.Some? && id.value in seen) {
          var seen' := if id.Some? then seen + {id.value} else seen;
          LosesJoin(here, ReadKids(h, IsList(v), kids, true, seen', inner, depth + 1, lim, live), few);
          KidPlacesLose(h, IsList(v), kids, seen', inner, depth + 1, lim, live, few + Ids(here), many + Ids(here));
        }
      }
    }
  }

  lemma {:induction false} KidPlacesLose(
    h: Heap, list: bool, kids: seq<Kid>, seen: set<Id>, path: set<Id>, depth: int, lim: Limits, live: bool,
    few: set<Id>, many: set<Id>)
    requires few <= many
    ensures var a := ReadKids(h, list, kids, true, seen, path, depth, lim, live);
      var b := ReadKids(h, list, kids, false, {}, path, depth, lim, live);
      Ids(a) <= Ids(b) && (Loses(a, few) ==> Loses(b, many))
    decreases Left(h, path), 2 * NestKids(kids) + 1, |kids|
  {
    hide Unfold, Reads, Left, Nest, Loses, Ids, HeadKept;
    LosesNone(few);
    if kids != [] {
      var kept := live && HeadKept(list, kids);
      var a, b := Reads(h, kids[0].value, true, seen, path, depth, lim, kept),
        Reads(h, kids[0].value, false, {}, path, depth, lim, kept);
      PlacesLose(h, kids[0].value, seen, path, depth, lim, kept, few, many);
      KidPlacesLose(h, list, kids[1..], seen + Ids(a), path, depth, lim, live, few + Ids(a), many + Ids(b));
      LosesJoin(a, ReadKids(h, list, kids[1..], true, seen + Ids(a), path, depth, lim, live), few);
      LosesJoin(b, ReadKids(h, list, kids[1..], false, {}, path, depth, lim, live), many);
    }
  }

  /** A value none of whose references stands at two places of its unfolding, the later one kept and not the
      sentinel anyway, is written out in full. */
  lemma UnsharedInFull(h: Heap, v: Value, lim: Limits)
    requires !Loses(Places(h, v, lim), {})
    ensures Hardened(h, v, lim).o == Unfolded(h, v, lim)
  {
    hide Reads, Loses, Hardened, Unfolded;
    PlacesLose(h, v, {}, {}, 0, lim, true, {}, {});
    InFullIff(h, v, lim);
  }

  // ---- two kept places ----------------------------------------------------------------------------

  function KeptOnly(ps: seq<Place>): seq<Place> {
    if ps == [] then [] else (if ps[0].kept then [ps[0]] else []) + KeptOnly(ps[1..])
  }

  lemma {:induction false} KeptOnlyJoin(a: seq<Place>, b: seq<Place>)
    ensures KeptOnly(a + b) == KeptOnly(a) + KeptOnly(b)
  {
    hide KeptOnly;
    if a == [] {
      KeptOnlyNone();
      assert [] + b == b && [] + KeptOnly(b) == KeptOnly(b);
    } else {
      KeptOnlyJoin(a[1..], b);
      KeptOnlyStep(a + b);
      KeptOnlyStep(a);
      TailJoin(a, b);
      Associates(KeptOnly([a[0]]), KeptOnly(a[1..]), KeptOnly(b));
    }
  }

  lemma TailJoin(a: seq<Place>, b: seq<Place>)
    requires a != []
    ensures (a + b)[0] == a[0] && (a + b)[1..] == a[1..] + b
  {}

  lemma Associates(a: seq<Place>, b: seq<Place>, c: seq<Place>)
    ensures a + (b + c) == (a + b) + c
  {}

  lemma KeptOnlyStep(ps: seq<Place>)
    requires ps != []
    ensures KeptOnly(ps) == KeptOnly([ps[0]]) + KeptOnly(ps[1..])
  {
    KeptOnlyOne(ps[0]);
  }

  lemma KeptOnlyOne(p: Place)
    ensures KeptOnly([p]) == if p.kept then [p] else []
  {
    assert [p][1..] == [];
  }

  lemma {:induction false} KeptOnlyDead(ps: seq<Place>)
    requires forall p :: p in ps ==> !p.kept
    ensures KeptOnly(ps) == []
  {
    if ps != [] {
      assert ps[0] in ps;
      KeptOnlyDead(ps[1..]);
    }
  }

  lemma {:induction false} KeptOnlyAll(ps: seq<Place>)
    requires forall p :: p in ps ==> p.kept
    ensures KeptOnly(ps) == ps
  {
    if ps != [] {
      assert ps[0] in ps;
      KeptOnlyAll(ps[1..]);
    }
  }

  /** The first reference come to in v. */
  function First(h: Heap, v: Value): Option<Id> {
    if LivePtr(h, v) then Some(v.id) else if v.Ptr? || v.NilRef? then None else Identity(h, v)
  }

  predicate ChainedAt(h: Heap, seen: set<Id>, pending: Option<Id>, p: Id) {
    p in h && h[p].PtrNode? && h[p].text.None? && First(h, h[p].target).Some? ==>
      First(h, h[p].target).value in seen || First(h, h[p].target) == pending
  }

  /** A pointer is never crossed without what it points to, but for the reference the walk is about to cross. */
  ghost predicate Chained(h: Heap, seen: set<Id>, pending: Option<Id>) {
    forall p :: p in seen ==> ChainedAt(h, seen, pending, p)
  }

  lemma ChainedWith(h: Heap, seen: set<Id>, id: Id, pending: Option<Id>)
    requires Chained(h, seen, Some(id)) && ChainedAt(h, seen + {id}, pending, id)
    ensures Chained(h, seen + {id}, pending)
  {
    forall p | p in seen + {id} ensures ChainedAt(h, seen + {id}, pending, p) {
      if p != id { assert ChainedAt(h, seen, Some(id), p); }
    }
  }

  lemma ChainedDone(h: Heap, seen: set<Id>, id: Id)
    requires Chained(h, seen, Some(id)) && id in seen
    ensures Chained(h, seen, None)
  {
    forall p | p in seen ensures ChainedAt(h, seen, None, p) { assert ChainedAt(h, seen, Some(id), p); }
  }

  lemma ChainedAny(h: Heap, seen: set<Id>, pending: Option<Id>)
    requires Chained(h, seen, None)
    ensures Chained(h, seen, pending)
  {
    forall p | p in seen ensures ChainedAt(h, seen, pending, p) { assert ChainedAt(h, seen, None, p); }
  }

  /** An identity is a pair of type and address, so a byte slice never has a pointer's. */
  ghost predicate Typed(h: Heap, v: Value) {
    match v
    case Bytes(id, _, _) => !(id in h && h[id].PtrNode?)
    case Array(items) => forall i :: 0 <= i < |items| ==> Typed(h, items[i])
    case Struct(fields) => forall i :: 0 <= i < |fields| ==> Typed(h, fields[i].value)
    case _ => true
  }

  ghost predicate TypedHeap(h: Heap) { forall id :: id in h ==> TypedNode(h, h[id]) }

  ghost predicate TypedNode(h: Heap, node: Node) {
    match node
    case PtrNode(target, _) => Typed(h, target)
    case MapNode(_, m, _) => forall k :: k in m ==> Typed(h, m[k])
    case SliceNode(items, _) => forall i :: 0 <= i < |items| ==> Typed(h, items[i])
  }

  ghost predicate TypedKids(h: Heap, kids: seq<Kid>) { forall i :: 0 <= i < |kids| ==> Typed(h, kids[i].value) }

  lemma {:induction false} FieldsTyped(h: Heap, fields: seq<Field>, names: set<string>, lim: Limits)
    requires forall i :: 0 <= i < |fields| ==> Typed(h, fields[i].value)
    ensures TypedKids(h, FieldKids(fields, names, lim))
  {
    hide Typed;
    if fields != [] { FieldsTyped(h, fields[1..], names + {fields[0].name}, lim); }
  }

  lemma KidsTyped(h: Heap, v: Value, lim: Limits)
    requires Typed(h, v) && TypedHeap(h)
    ensures TypedKids(h, Kids(h, v, lim))
  {
    if v.Struct? {
      FieldsTyped(h, v.fields, {}, lim);
    } else if v.Map? {
      var m := Entries(h, v.id);
      if v.id in h { assert TypedNode(h, h[v.id]); }
      SortedPoints(m.Keys);
      hide SortedKeys, VisitedKeys, Typed;
      EntriesTyped(h, m, VisitedKeys(SortedKeys(Points, m.Keys), {}, {}, lim));
    } else if v.Slice? && v.id in h {
      assert TypedNode(h, h[v.id]);
    }
  }

  lemma EntriesTyped(h: Heap, m: map<string, Value>, keys: seq<string>)
    requires (forall k :: k in m ==> Typed(h, m[k])) && forall k :: k in keys ==> k in m
    ensures TypedKids(h, KeyKids(m, keys))
  {
    hide Typed;
    forall i | 0 <= i < |keys| ensures Typed(h, KeyKids(m, keys)[i].value) { assert keys[i] in keys; }
  }

  lemma BuiltIsWritten(list: bool, kids: seq<Kid>, outs: seq<Out>)
    requires |outs| == |kids|
    ensures Build(list, kids, outs) != OStr(REDACTED)
  {}

  /** Where the sentinel is written anyway, only the pointers on the way to it stand, all of them cut. */
  lemma {:induction false} CutPlaces(
    h: Heap, v: Value, seen: set<Id>, path: set<Id>, depth: int, lim: Limits, live: bool)
    requires Chained(h, seen, None) && !Written(h, v, path, depth, lim)
    requires First(h, v).Some? ==> First(h, v).value in seen
    ensures forall p :: p in Reads(h, v, false, {}, path, depth, lim, live) ==> p.cut && p.id in seen
    decreases Left(h, path)
  {
    hide Unfold, Reads, Left, Flat, Kids, Build, UnfoldKids, Chained;
    if v.Ptr? || v.NilRef? {
      UnfoldPointer(h, v, path, depth, lim);
      ReadPointer(h, v, false, {}, path, depth, lim, live);
      if LivePtr(h, v) && v.id !in path && h[v.id].text.None? {
        ChainedAtSeen(h, seen, v.id);
        CutPlaces(h, h[v.id].target, seen, path + {v.id}, depth, lim, live);
      }
    } else {
      UnfoldReached(h, v, path, depth, lim);
      ReadReached(h, v, false, {}, path, depth, lim, live);
      var kids := Kids(h, v, lim);
      BuiltIsWritten(IsList(v), kids, UnfoldKids(h, kids, With(path, Identity(h, v)), depth + 1, lim));
    }
  }

  lemma ChainedAtSeen(h: Heap, seen: set<Id>, p: Id)
    requires Chained(h, seen, None) && p in seen && p in h && h[p].PtrNode? && h[p].text.None?
    ensures First(h, h[p].target).Some? ==> First(h, h[p].target).value in seen
  {
    assert ChainedAt(h, seen, None, p);
  }

  lemma CutLoseNothing(ps: seq<Place>, seen: set<Id>)
    requires forall p :: p in ps ==> p.cut && p.id in seen
    ensures !Loses(KeptOnly(ps), seen) && Ids(KeptOnly(ps)) <= seen
  {
    KeptOnlyIn(ps);
    forall j | 0 <= j < |KeptOnly(ps)| ensures !LosesAt(KeptOnly(ps), seen, j) { assert KeptOnly(ps)[j] in ps; }
  }

  lemma {:induction false} KeptOnlyIn(ps: seq<Place>)
    ensures forall p :: p in KeptOnly(ps) ==> p in ps
  {
    if ps != [] { KeptOnlyIn(ps[1..]); }
  }

  /** If reading once loses nothing, it comes to every reference that stands at a kept place, and no two kept
      places lose either. */
  lemma {:induction false} KeptRead(
    h: Heap, v: Value, seen: set<Id>, path: set<Id>, depth: int, lim: Limits, live: bool)
    requires TypedHeap(h) && Typed(h, v)
    requires path <= seen && Chained(h, seen, First(h, v))
    ensures var a := Reads(h, v, true, seen, path, depth, lim, live);
      var b := KeptOnly(Reads(h, v, false, {}, path, depth, lim, live));
      Chained(h, seen + Ids(a), None) &&
      (!Loses(a, seen) ==> Ids(b) <= seen + Ids(a) && !Loses(b, seen))
    decreases Left(h, path), 2 * Nest(v), 1
  {
    hide Unfold, Reads, Left, Nest, Loses, Ids, KeptOnly, Chained, Flat, Kids;
    LosesNone(seen);
    if v.Ptr? || v.NilRef? {
      ReadPointer(h, v, true, seen, path, depth, lim, live);
      ReadPointer(h, v, false, {}, path, depth, lim, live);
      KeptOnlyNone();
      if LivePtr(h, v) {
        var p := Place(v.id, !Written(h, v, path, depth, lim), live);
        LosesOne(p, seen);
        KeptOnlyOne(p);
        UnfoldPointer(h, v, path, depth, lim);
        if v.id in seen {
          RepeatRead(h, v, seen, path, depth, lim, live);
        } else if h[v.id].text.Some? {
          ChainedWith(h, seen, v.id, None);
        } else {
          var t, inner := h[v.id].target, path + {v.id};
          ChainedWith(h, seen, v.id, First(h, t));
          assert TypedNode(h, h[v.id]);
          KeptRead(h, t, seen + {v.id}, inner, depth, lim, live);
          LosesJoin([p], Reads(h, t, true, seen + {v.id}, inner, depth, lim, live), seen);
          KeptOnlyJoin([p], Reads(h, t, false, {}, inner, depth, lim, live));
          var rest := Reads(h, t, true, seen + {v.id}, inner, depth, lim, live);
          assert seen + ({v.id} + Ids(rest)) == seen + {v.id} + Ids(rest);
          if !Loses([p] + rest, seen) {
            KeptHead(p, KeptOnly(Reads(h, t, false, {}, inner, depth, lim, live)), seen);
          }
        }
      } else {
        assert seen + {} == seen;
      }
    } else {
      KeptReadReached(h, v, seen, path, depth, lim, live);
    }
  }

  lemma KeptOnlyNone()
    ensures KeptOnly([]) == []
  {}

  /** A first meeting loses nothing itself. */
  lemma KeptHead(p: Place, rest: seq<Place>, seen: set<Id>)
    requires p.id !in seen && !Loses(rest, seen + {p.id})
    ensures !Loses(KeptOnly([p]) + rest, seen) && Ids(KeptOnly([p]) + rest) <= {p.id} + Ids(rest)
  {
    KeptOnlyOne(p);
    LosesNone(seen);
    LosesOne(p, seen);
    hide Loses, Ids, KeptOnly;
    LosesJoin(KeptOnly([p]), rest, seen);
    if Loses(rest, seen) { LosesMore(rest, seen, seen + {p.id}); }
    assert seen + {} == seen;
  }

  /** A reference met again: nothing is lost there only if the sentinel would have been written anyway. */
  lemma RepeatRead(h: Heap, v: Value, seen: set<Id>, path: set<Id>, depth: int, lim: Limits, live: bool)
    requires path <= seen && Chained(h, seen, First(h, v)) && First(h, v).Some? && First(h, v).value in seen
    ensures var a := Reads(h, v, true, seen, path, depth, lim, live);
      var b := KeptOnly(Reads(h, v, false, {}, path, depth, lim, live));
      Chained(h, seen + Ids(a), None) &&
      (!Loses(a, seen) ==> Ids(b) <= seen + Ids(a) && !Loses(b, seen))
  {
    hide Unfold, Reads, Left, Loses, Ids, KeptOnly, Chained, Flat, Kids;
    var id := First(h, v).value;
    var p := Place(id, !Written(h, v, path, depth, lim), live);
    var a := Reads(h, v, true, seen, path, depth, lim, live);
    if v.Ptr? { ReadPointer(h, v, true, seen, path, depth, lim, live); }
    else { ReadReached(h, v, true, seen, path, depth, lim, live); }
    assert a == [p];
    LosesOne(p, seen);
    ChainedDone(h, seen, id);
    assert seen + {id} == seen;
    var b := Reads(h, v, false, {}, path, depth, lim, live);
    if !live {
      DeadReads(h, v, false, {}, path, depth, lim);
      KeptOnlyDead(b);
      LosesNone(seen);
    } else if p.cut {
      CutPlaces(h, v, seen, path, depth, lim, live);
      CutLoseNothing(b, seen);
    }
  }

  lemma {:induction false} KeptReadReached(
    h: Heap, v: Value, seen: set<Id>, path: set<Id>, depth: int, lim: Limits, live: bool)
    requires TypedHeap(h) && Typed(h, v)
    requires path <= seen && Chained(h, seen, First(h, v)) && !v.Ptr? && !v.NilRef?
    ensures var a := Reads(h, v, true, seen, path, depth, lim, live);
      var b := KeptOnly(Reads(h, v, false, {}, path, depth, lim, live));
      Chained(h, seen + Ids(a), None) &&
      (!Loses(a, seen) ==> Ids(b) <= seen + Ids(a) && !Loses(b, seen))
    decreases Left(h, path), 2 * Nest(v), 0
  {
    hide Unfold, Reads, ReadKids, Left, Nest, NestKids, Loses, Ids, KeptOnly, Chained, Flat, Kids, Build, UnfoldKids,
      Typed, TypedHeap, TypedKids;
    LosesNone(seen);
    KeptOnlyNone();
    var id := Identity(h, v);
    if id.Some? && id.value in seen {
      RepeatRead(h, v, seen, path, depth, lim, live);
    } else {
      ReadReached(h, v, true, seen, path, depth, lim, live);
      ReadReached(h, v, false, {}, path, depth, lim, live);
      UnfoldReached(h, v, path, depth, lim);
      var here := if id.Some? then [Place(id.value, !Written(h, v, path, depth, lim), live)] else [];
      if id.Some? {
        LosesOne(here[0], seen);
        KeptOnlyOne(here[0]);
        NotAPointer(h, v, seen + {id.value});
        ChainedWith(h, seen, id.value, None);
      }
      var seen' := seen + Ids(here);
      assert here == [] ==> seen' == seen;
      assert Chained(h, seen', None);
      KidsTyped(h, v, lim);
      if Flat(h, v, depth, lim).None? {
        var kids, inner := Kids(h, v, lim), With(path, id);
        KeptReadKids(h, IsList(v), kids, seen', inner, depth + 1, lim, live);
        var a, b := ReadKids(h, IsList(v), kids, true, seen', inner, depth + 1, lim, live),
          ReadKids(h, IsList(v), kids, false, {}, inner, depth + 1, lim, live);
        LosesJoin(here, a, seen);
        KeptOnlyJoin(here, b);
        assert seen + (Ids(here) + Ids(a)) == seen' + Ids(a);
        if !Loses(here + a, seen) {
          if id.Some? { KeptHead(here[0], KeptOnly(b), seen); }
            else { assert KeptOnly([]) + KeptOnly(b) == KeptOnly(b); }
        }
      }
    }
  }

  lemma NotAPointer(h: Heap, v: Value, seen: set<Id>)
    requires Identity(h, v).Some? && !v.Ptr? && Typed(h, v)
    ensures ChainedAt(h, seen, None, Identity(h, v).value)
  {}

  lemma {:induction false} KeptReadKids(
    h: Heap, list: bool, kids: seq<Kid>, seen: set<Id>, path: set<Id>, depth: int, lim: Limits, live: bool)
    requires TypedHeap(h) && TypedKids(h, kids)
    requires path <= seen && Chained(h, seen, None)
    ensures var a := ReadKids(h, list, kids, true, seen, path, depth, lim, live);
      var b := KeptOnly(ReadKids(h, list, kids, false, {}, path, depth, lim, live));
      Chained(h, seen + Ids(a), None) &&
      (!Loses(a, seen) ==> Ids(b) <= seen + Ids(a) && !Loses(b, seen))
    decreases Left(h, path), 2 * NestKids(kids) + 1, |kids|
  {
    hide Unfold, Reads, Left, Nest, Loses, Ids, KeptOnly, Chained, HeadKept;
    LosesNone(seen);
    KeptOnlyNone();
    assert seen + {} == seen;
    if kids != [] {
      var v, kept := kids[0].value, live && HeadKept(list, kids);
      ChainedAny(h, seen, First(h, v));
      KeptRead(h, v, seen, path, depth, lim, kept);
      var a, b := Reads(h, v, true, seen, path, depth, lim, kept), Reads(h, v, false, {}, path, depth, lim, kept);
      KeptReadKids(h, list, kids[1..], seen + Ids(a), path, depth, lim, live);
      var c, d := ReadKids(h, list, kids[1..], true, seen + Ids(a), path, depth, lim, live),
        ReadKids(h, list, kids[1..], false, {}, path, depth, lim, live);
      LosesJoin(a, c, seen);
      KeptOnlyJoin(b, d);
      LosesJoin(KeptOnly(b), KeptOnly(d), seen);
      assert seen + (Ids(a) + Ids(c)) == seen + Ids(a) + Ids(c);
      if !Loses(a + c, seen) && Loses(KeptOnly(d), seen + Ids(KeptOnly(b))) {
        LosesMore(KeptOnly(d), seen + Ids(KeptOnly(b)), seen + Ids(a));
        assert false;
      }
    }
  }

  /** A value with a reference at two kept places, the later of which is not the sentinel anyway, is not
      written out in full. */
  lemma SharedIsLost(h: Heap, v: Value, lim: Limits)
    requires TypedHeap(h) && Typed(h, v) && Loses(KeptOnly(Places(h, v, lim)), {})
    ensures Hardened(h, v, lim).o != Unfolded(h, v, lim)
  {
    hide Reads, Loses, Hardened, Unfolded, KeptOnly;
    assert Chained(h, {}, First(h, v));
    KeptRead(h, v, {}, {}, 0, lim, true);
    InFullIff(h, v, lim);
  }

  ghost predicate NothingDiscarded(h: Heap, v: Value, lim: Limits) { forall p :: p in Places(h, v, lim) ==> p.kept }

  /** When no entry of the value gives way to a later one of its name: it is written out in full if and only if
      no reference stands at two places of its unfolding, the later not the sentinel anyway. */
  lemma InFullIffUnshared(h: Heap, v: Value, lim: Limits)
    requires TypedHeap(h) && Typed(h, v) && NothingDiscarded(h, v, lim)
    ensures Hardened(h, v, lim).o == Unfolded(h, v, lim) <==> !Loses(Places(h, v, lim), {})
  {
    hide Reads, Loses, Hardened, Unfolded, KeptOnly;
    KeptOnlyAll(Places(h, v, lim));
    if Loses(Places(h, v, lim), {}) { SharedIsLost(h, v, lim); } else { UnsharedInFull(h, v, lim); }
  }

  // ---- names that keep every entry ----------------------------------------------------------------

  predicate DistinctNames(kids: seq<Kid>) {
    forall i, j :: 0 <= i < j < |kids| ==> kids[i].name != kids[j].name
  }

  /** Structs inside v have different JSON names for different fields. */
  predicate Tidy(v: Value) {
    match v
    case Array(items) => forall i :: 0 <= i < |items| ==> Tidy(items[i])
    case Struct(fields) =>
      (forall i :: 0 <= i < |fields| ==> Tidy(fields[i].value)) &&
      (forall i, j :: 0 <= i < j < |fields| ==> fields[i].name != fields[j].name)
    case _ => true
  }

  /** And maps have keys free of control characters. */
  predicate TidyNode(node: Node) {
    match node
    case PtrNode(target, _) => Tidy(target)
    case MapNode(_, m, _) => forall k :: k in m ==> Tidy(m[k]) && CleanKey(k) == k
    case SliceNode(items, _) => forall i :: 0 <= i < |items| ==> Tidy(items[i])
  }

  predicate TidyHeap(h: Heap) { forall id :: id in h ==> TidyNode(h[id]) }

  predicate TidyKids(list: bool, kids: seq<Kid>) {
    (list || DistinctNames(kids)) && forall i :: 0 <= i < |kids| ==> Tidy(kids[i].value)
  }

  lemma {:induction false} FieldsTidy(fields: seq<Field>, names: set<string>, lim: Limits)
    requires Tidy(Struct(fields))
    ensures TidyKids(false, FieldKids(fields, names, lim))
    ensures forall i :: 0 <= i < |FieldKids(fields, names, lim)| ==>
      exists j :: 0 <= j < |fields| && FieldKids(fields, names, lim)[i].name == fields[j].name
    decreases |fields|
  {
    if fields != [] && !(lim.maxAttrs > 0 && |names| >= lim.maxAttrs) {
      var rest := FieldKids(fields[1..], names + {fields[0].name}, lim);
      FieldsTidy(fields[1..], names + {fields[0].name}, lim);
      var kids := FieldKids(fields, names, lim);
      forall i | 0 <= i < |kids| ensures exists j :: 0 <= j < |fields| && kids[i].name == fields[j].name {
        if i == 0 { assert kids[0].name == fields[0].name; }
        else {
          var j :| 0 <= j < |fields[1..]| && rest[i - 1].name == fields[1..][j].name;
          assert kids[i].name == fields[j + 1].name;
        }
      }
      forall i | 0 <= i < |rest| ensures rest[i].name != fields[0].name {
        var j :| 0 <= j < |fields[1..]| && rest[i].name == fields[1..][j].name;
        assert fields[1..][j] == fields[j + 1];
      }
    }
  }

  lemma {:induction false} VisitedDistinct(keys: seq<string>, names: set<string>, verbatim: set<string>, lim: Limits)
    requires Distinct(keys)
    ensures Distinct(VisitedKeys(keys, names, verbatim, lim))
  {
    hide CleanKey, SkipsName;
    if keys != [] {
      var k, name := keys[0], CleanKey(keys[0]);
      if SkipsName(names, verbatim, k, lim) {
        VisitedDistinct(keys[1..], names, verbatim, lim);
      } else {
        var verbatim' := if name == k then verbatim + {name} else verbatim;
        VisitedDistinct(keys[1..], names + {name}, verbatim', lim);
        var rest := VisitedKeys(keys[1..], names + {name}, verbatim', lim);
        assert k !in keys[1..];
        assert k !in rest;
      }
    }
  }

  lemma EntriesTidy(m: map<string, Value>, keys: seq<string>)
    requires (forall k :: k in m ==> Tidy(m[k]) && CleanKey(k) == k) && Distinct(keys) &&
      forall k :: k in keys ==> k in m
    ensures TidyKids(false, KeyKids(m, keys))
  {
    hide Tidy, CleanKey;
    forall i | 0 <= i < |keys| ensures Tidy(KeyKids(m, keys)[i].value) && KeyKids(m, keys)[i].name == keys[i] {
      assert keys[i] in keys;
    }
  }

  lemma KidsTidy(h: Heap, v: Value, lim: Limits)
    requires Tidy(v) && TidyHeap(h)
    ensures TidyKids(IsList(v), Kids(h, v, lim))
  {
    hide SortedKeys, VisitedKeys, FieldKids, KeyKids;
    if v.Struct? {
      FieldsTidy(v.fields, {}, lim);
    } else if v.Map? {
      MapTidy(h, v.id, lim);
    } else if v.Slice? && v.id in h {
      assert TidyNode(h[v.id]);
    }
  }

  lemma MapTidy(h: Heap, id: Id, lim: Limits)
    requires TidyHeap(h)
    ensures TidyKids(false, Kids(h, Map(id), lim))
  {
    hide SortedKeys, VisitedKeys, Tidy, KeyKids, TidyKids, CleanKey;
    var m := Entries(h, id);
    if id in h { assert TidyNode(h[id]); }
    SortedPoints(m.Keys);
    VisitedDistinct(SortedKeys(Points, m.Keys), {}, {}, lim);
    EntriesTidy(m, VisitedKeys(SortedKeys(Points, m.Keys), {}, {}, lim));
  }

  lemma {:induction false} TidyReads(
    h: Heap, v: Value, once: bool, seen: set<Id>, path: set<Id>, depth: int, lim: Limits)
    requires Tidy(v) && TidyHeap(h)
    ensures forall p :: p in Reads(h, v, once, seen, path, depth, lim, true) ==> p.kept
    decreases Left(h, path), 2 * Nest(v), 0
  {
    hide Unfold, Left, Nest, NestKids, Flat, Kids, Written, TidyKids, Tidy;
    var id := Identity(h, v);
    if LivePtr(h, v) && v.id !in seen && v.id !in path && h[v.id].text.None? {
      LeftDrops(h, path, v.id);
      assert TidyNode(h[v.id]);
      TidyReads(h, h[v.id].target, once, Also(once, seen, {v.id}), path + {v.id}, depth, lim);
    } else if !v.Ptr? && !v.NilRef? && Flat(h, v, depth, lim).None? &&
      (id.Some? ==> id.value !in seen && id.value !in path) {
      UnfoldReached(h, v, path, depth, lim);
      KidsTidy(h, v, lim);
      TidyReadKids(h, IsList(v), Kids(h, v, lim), once, if id.Some? then Also(once, seen, {id.value}) else seen,
        With(path, id), depth + 1, lim);
    }
    if v.Ptr? || v.NilRef? { ReadPointer(h, v, once, seen, path, depth, lim, true); }
    else { ReadReached(h, v, once, seen, path, depth, lim, true); }
    hide Reads;
  }

  lemma TidyHead(list: bool, kids: seq<Kid>)
    requires kids != [] && TidyKids(list, kids)
    ensures HeadKept(list, kids) && TidyKids(list, kids[1..]) && Tidy(kids[0].value)
  {
    hide Tidy;
  }

  lemma {:induction false} TidyReadKids(
    h: Heap, list: bool, kids: seq<Kid>, once: bool, seen: set<Id>, path: set<Id>, depth: int, lim: Limits)
    requires TidyKids(list, kids) && TidyHeap(h)
    ensures forall p :: p in ReadKids(h, list, kids, once, seen, path, depth, lim, true) ==> p.kept
    decreases Left(h, path), 2 * NestKids(kids) + 1, |kids|
  {
    hide Reads, Left, Nest, HeadKept, Ids, TidyKids, Tidy, TidyHeap;
    if kids != [] {
      TidyHead(list, kids);
      TidyReads(h, kids[0].value, once, seen, path, depth, lim);
      var a := Reads(h, kids[0].value, once, seen, path, depth, lim, true);
      TidyReadKids(h, list, kids[1..], once, Also(once, seen, Ids(a)), path, depth, lim);
    }
  }

  /** With clean map keys and struct names that differ, no entry gives way to another. */
  lemma TidyDiscardsNothing(h: Heap, v: Value, lim: Limits)
    requires Tidy(v) && TidyHeap(h)
    ensures NothingDiscarded(h, v, lim)
  {
    hide Reads;
    TidyReads(h, v, false, {}, {}, 0, lim);
  }

  // ---- one entry of a map -------------------------------------------------------------------------

  /** The references come to before hardenMap reads keys[i]: those of before the map, and those of the entries
      it visits on the way there, discarded ones included. */
  ghost function MetBefore(
    h: Heap, m: map<string, Value>, keys: seq<string>, i: nat, seen: set<Id>, depth: int, lim: Limits): set<Id>
    requires i <= |keys| && forall k :: k in keys ==> k in m
  {
    PrefixIn(keys, i, m.Keys);
    var kids := KeyKids(m, VisitedKeys(keys[..i], {}, {}, lim));
    seen + Ids(ReadKids(h, false, kids, true, seen, {}, depth + 1, lim, true))
  }

  lemma SeenIsMet(h: Heap, m: map<string, Value>, keys: seq<string>, i: nat, w: Walk, depth: int, lim: Limits)
    requires i <= |keys| && forall k :: k in keys ==> k in m
    ensures AtKey(h, m, keys, i, w, depth, lim).w.seen == MetBefore(h, m, keys, i, w.seen, depth, lim)
  {
    hide HardenValue, Harden.HardenKeys, HardenItems, Reads, ReadKids, Ids, VisitedKeys, KeyKids, Unfold, UnfoldKids;
    PrefixIn(keys, i, m.Keys);
    assert Nothing.out.Keys == {};
    KeysAreKids(h, m, keys[..i], Nothing, w, depth, lim);
    KidsVisits(h, false, KeyKids(m, VisitedKeys(keys[..i], {}, {}, lim)), w, {}, depth, lim, true);
  }

  /** A kept entry that leads to a container is the sentinel if and only if a reference on its way is met before
      the map, or under an entry visited earlier, whether or not that one was kept. */
  lemma EntryLostIff(h: Heap, m: map<string, Value>, w: Walk, depth: int, lim: Limits, n: string, i: nat)
    requires var keys := SortedKeys(Points, m.Keys);
      && (forall k :: k in keys ==> k in m) && n in HardenSorted(h, m, w, depth, lim).acc.out
      && i < |keys| && keys[i] == Pick(keys, n) && Expandable(h, m[keys[i]], depth + 1, lim)
    ensures var keys := SortedKeys(Points, m.Keys);
      HardenSorted(h, m, w, depth, lim).acc.out[n] == OStr(REDACTED) <==>
        Meets(Route(h, m[keys[i]]), MetBefore(h, m, keys, i, w.seen, depth, lim))
  {
    hide HardenSorted, SortedKeys, Pick, Route, Expandable, HardenValue, AtKey, MetBefore;
    var keys := SortedKeys(Points, m.Keys);
    var out := HardenSorted(h, m, w, depth, lim).acc.out;
    SortedIsAtKey(h, m, w, depth, lim);
    MapKeepsFirstNames(h, m, w, depth, lim);
    var j :| 0 <= j < |keys| && keys[j] == Pick(keys, n) && HardenedAt(h, m, keys, j, w, depth, lim, out[n]);
    assert j == i;
    SentinelIff(h, m[keys[i]], AtKey(h, m, keys, i, w, depth, lim).w, depth + 1, lim);
    SeenIsMet(h, m, keys, i, w, depth, lim);
  }
}
