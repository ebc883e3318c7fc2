/** CanonicalJSON on any other Go value (go/canonicaljson.go:71-76): it is hardened without limits and the
    result, a tree of new maps and lists, is walked like every JSON-shaped value. */
module CanonicalAny {
  import opened Common
  import opened Ordering
  import opened JsonText
  import C = CanonicalWalk
  import Paths = CanonicalPaths
  import H = Harden
  import HardenShared
  import U = HardenUnfold
  import P = HardenPlaces
  import T = HardenTwice

  /** FormatFloat on a float's bits. */
  type Digits = nat -> C.Float

  /** _unlimited: MaxDepth is the largest int64. */
  const Unlimited := H.Limits(0x7fff_ffff_ffff_ffff, 0, 0)

  // ---- what a hardened value means ----------------------------------------------------------------

  ghost function Meaning(o: H.Out, digits: Digits): Json {
    match o
    case ONil => Null
    case OBool(b) => Bool(b)
    case OInt(i) => C.Scalar(C.VInt(i))
    case OUint(u) => C.Scalar(C.VUint(u))
    case OFloat(bits) => C.Scalar(C.VFloat(digits(bits)))
    case OStr(s) => Str(s)
    case OList(items) => Arr(seq(|items|, i requires 0 <= i < |items| => Meaning(items[i], digits)))
    case OMap(m) => Obj(map k | k in m :: Meaning(m[k], digits))
  }

  // ---- the tree in memory -------------------------------------------------------------------------

  function AsValue(v: H.Value, digits: Digits): C.Value {
    match v
    case Bool(b) => C.VBool(b)
    case Int(i) => C.VInt(i)
    case Uint(u) => C.VUint(u)
    case Float(bits) => C.VFloat(digits(bits))
    case Str(s) => C.VStr(s)
    case Map(id) => C.VMap(id)
    case Slice(id, len) => C.VList(id, len)
    case _ => C.VNil
  }

  function AsNode(n: H.Node, digits: Digits): C.Node {
    match n
    case MapNode(_, m, _) => C.MapNode(map k | k in m :: C.Shaped(AsValue(m[k], digits)))
    case SliceNode(items, _) =>
      C.ListNode(seq(|items|, i requires 0 <= i < |items| => C.Shaped(AsValue(items[i], digits))))
    case PtrNode(_, _) => C.ListNode([])
  }

  /** The heap as canonicalization reads it. */
  function AsHeap(h: H.Heap, digits: Digits): C.Heap { map id | id in h :: AsNode(h[id], digits) }

  /** g has every node of G, read as canonicalization reads it. */
  ghost predicate Contains(g: C.Heap, G: H.Heap, digits: Digits) {
    forall id :: id in G ==> id in g && g[id] == AsNode(G[id], digits)
  }

  predicate Clear(path: set<C.Id>, lo: nat, hi: nat) { forall id :: id in path ==> !(lo <= id < hi) }

  lemma {:induction false} TreeOfCopy(G: H.Heap, g: C.Heap, o: H.Out, next: nat, path: set<C.Id>, digits: Digits)
    requires Contains(g, G, digits) && T.Holds(G, T.Embed(o, next).h) && Clear(path, next, T.Embed(o, next).next)
    ensures C.Tree(g, AsValue(T.Embed(o, next).v, digits), path) == Meaning(o, digits)
    decreases o, 2
  {
    hide T.EmbedItems, T.EmbedEntries, C.Tree, Contains;
    var v := AsValue(T.Embed(o, next).v, digits);
    C.TreeClosed(g, v, path);
    if o.OList? {
      TreeOfList(G, g, o, next, path, digits);
    } else if o.OMap? {
      TreeOfMap(G, g, o, next, path, digits);
    }
  }

  lemma {:induction false} TreeOfList(G: H.Heap, g: C.Heap, o: H.Out, next: nat, path: set<C.Id>, digits: Digits)
    requires Contains(g, G, digits) && o.OList? && T.Holds(G, T.Embed(o, next).h) &&
      Clear(path, next, T.Embed(o, next).next)
    ensures C.Tree(g, AsValue(T.Embed(o, next).v, digits), path) == Meaning(o, digits)
    decreases o, 1
  {
    T.ListCopy(G, o, next);
    var c := T.EmbedItems(o.items, next + 1);
    ListNodeRead(G, g, next, |o.items|, c.vs, digits);
    hide T.Embed, T.EmbedItems, C.Tree, Contains;
    C.TreeOpened(g, C.VList(next, |o.items|), path);
    TreeOfItems(G, g, o.items, next + 1, path + {next}, digits);
    var j := C.Tree(g, C.VList(next, |o.items|), path);
    assert j.items == Meaning(o, digits).items;
  }

  lemma ListNodeRead(G: H.Heap, g: C.Heap, id: H.Id, n: nat, vs: seq<H.Value>, digits: Digits)
    requires Contains(g, G, digits) && H.Items(G, id, n) == vs && |vs| == n && id in G && G[id].SliceNode?
    ensures var s := C.Items(g, id, n);
      |s| == n && forall i :: 0 <= i < n ==> s[i] == AsValue(vs[i], digits)
  {}

  lemma {:induction false} TreeOfItems(
    G: H.Heap, g: C.Heap, items: seq<H.Out>, next: nat, path: set<C.Id>, digits: Digits)
    requires Contains(g, G, digits) && T.Holds(G, T.EmbedItems(items, next).h) &&
      Clear(path, next, T.EmbedItems(items, next).next)
    ensures var vs := T.EmbedItems(items, next).vs;
      forall i :: 0 <= i < |items| ==>
        C.Tree(g, AsValue(vs[i], digits), path) == Meaning(items[i], digits)
    decreases items, 0
  {
    hide T.Embed, T.EmbedItems, C.Tree, Contains, Meaning;
    if items != [] {
      T.ItemsCopy(G, items, next);
      var a := T.Embed(items[0], next);
      TreeOfCopy(G, g, items[0], next, path, digits);
      TreeOfItems(G, g, items[1..], a.next, path, digits);
      var vs, rest := T.EmbedItems(items, next).vs, T.EmbedItems(items[1..], a.next).vs;
      forall i | 0 <= i < |items|
        ensures C.Tree(g, AsValue(vs[i], digits), path) == Meaning(items[i], digits)
      {
        if i > 0 { assert vs[i] == rest[i - 1] && items[i] == items[1..][i - 1]; }
      }
    }
  }

  lemma {:induction false} TreeOfMap(G: H.Heap, g: C.Heap, o: H.Out, next: nat, path: set<C.Id>, digits: Digits)
    requires Contains(g, G, digits) && o.OMap? && T.Holds(G, T.Embed(o, next).h) &&
      Clear(path, next, T.Embed(o, next).next)
    ensures C.Tree(g, AsValue(T.Embed(o, next).v, digits), path) == Meaning(o, digits)
    decreases o, 1
  {
    hide T.Embed, T.EmbedEntries, C.Tree, Contains, SortedKeys, Points, T.Holds, C.Entries, C.Empty, Meaning;
    T.MapOrder(o.m);
    var keys := SortedKeys(Points, o.m.Keys);
    T.MapCopy(G, o, keys, next);
    var c := T.EmbedEntries(o, keys, next + 1);
    MapNodeRead(G, g, next, c.m, digits);
    TreeOfEntries(G, g, o, keys, next + 1, path + {next}, digits);
    var e := C.Entries(g, next);
    forall k | k in o.m ensures C.Tree(g, e[k], path + {next}) == Meaning(o.m[k], digits) { assert k in keys; }
    EntriesMean(g, next, o, path, digits);
  }

  lemma EntriesMean(g: C.Heap, id: C.Id, o: H.Out, path: set<C.Id>, digits: Digits)
    requires o.OMap? && id !in path && C.Entries(g, id).Keys == o.m.Keys
    requires var e := C.Entries(g, id); forall k :: k in o.m ==> C.Tree(g, e[k], path + {id}) == Meaning(o.m[k], digits)
    ensures C.Tree(g, C.VMap(id), path) == Meaning(o, digits)
  {
    hide C.Tree, C.Entries, C.Empty, Meaning;
    C.TreeOpened(g, C.VMap(id), path);
    MembersMean(o, C.Tree(g, C.VMap(id), path), digits);
  }

  lemma MembersMean(o: H.Out, j: Json, digits: Digits)
    requires o.OMap? && j.Obj? && j.members.Keys == o.m.Keys &&
      forall k :: k in o.m ==> j.members[k] == Meaning(o.m[k], digits)
    ensures j == Meaning(o, digits)
  {
    assert j.members == Meaning(o, digits).members;
  }

  lemma MapNodeRead(G: H.Heap, g: C.Heap, id: H.Id, m: map<string, H.Value>, digits: Digits)
    requires Contains(g, G, digits) && id in G && G[id] == H.MapNode(true, m, None)
    ensures var e := C.Entries(g, id);
      e.Keys == m.Keys && forall k :: k in m ==> e[k] == AsValue(m[k], digits)
  {}

  lemma {:induction false} TreeOfEntries(
    G: H.Heap, g: C.Heap, o: H.Out, keys: seq<string>, next: nat, path: set<C.Id>, digits: Digits)
    requires o.OMap? && Distinct(keys) && forall k :: k in keys ==> k in o.m
    requires Contains(g, G, digits) && T.Holds(G, T.EmbedEntries(o, keys, next).h) &&
      Clear(path, next, T.EmbedEntries(o, keys, next).next)
    ensures var m := T.EmbedEntries(o, keys, next).m;
      forall k :: k in keys ==> C.Tree(g, AsValue(m[k], digits), path) == Meaning(o.m[k], digits)
    decreases o, 0, |keys|
  {
    hide T.Embed, T.EmbedEntries, C.Tree, Contains, Meaning;
    if keys != [] {
      T.EntriesCopy(G, o, keys, next);
      var a := T.Embed(o.m[keys[0]], next);
      TreeOfCopy(G, g, o.m[keys[0]], next, path, digits);
      TreeOfEntries(G, g, o, keys[1..], a.next, path, digits);
      assert forall k :: k in keys ==> k == keys[0] || k in keys[1..];
    }
  }

  // ---- the text -----------------------------------------------------------------------------------

  /** What CanonicalJSON returns for v: the walk over a new copy of what hardening makes of it. */
  ghost function AnyText(h: H.Heap, v: H.Value, digits: Digits): string {
    var c := T.Embed(H.Hardened(h, v, Unlimited).o, 0);
    Print(C.Tree(AsHeap(c.h, digits), AsValue(c.v, digits), {}))
  }

  ghost predicate DigitsOk(digits: Digits) { forall bits :: C.ScalarOk(C.VFloat(digits(bits))) }

  lemma {:induction false} MeaningValid(o: H.Out, digits: Digits)
    requires DigitsOk(digits)
    ensures Valid(Meaning(o, digits))
  {
    match o
    case OInt(i) => C.SignedValid(i < 0, if i < 0 then -i else i);
    case OUint(u) => C.SignedValid(false, u);
    case OFloat(bits) => assert C.ScalarOk(C.VFloat(digits(bits)));
    case OList(items) =>
      forall i | 0 <= i < |items| ensures Valid(Meaning(items[i], digits)) { MeaningValid(items[i], digits); }
    case OMap(m) =>
      forall k | k in m ensures Valid(Meaning(m[k], digits)) { MeaningValid(m[k], digits); }
    case _ =>
  }

  /** The text is the canonical text of what hardening without limits leaves of the value. */
  lemma AnyTextIsHardened(h: H.Heap, v: H.Value, digits: Digits)
    ensures AnyText(h, v, digits) == Print(Meaning(H.Hardened(h, v, Unlimited).o, digits))
  {
    hide H.Hardened, Print, Meaning, C.Tree;
    var o := H.Hardened(h, v, Unlimited).o;
    TreeOfCopy(T.Embed(o, 0).h, AsHeap(T.Embed(o, 0).h, digits), o, 0, {}, digits);
  }

  /** Two arbitrary Go values share a digest exactly if hardening leaves the same JSON value of both. */
  lemma SameTextIff(g: H.Heap, u: H.Value, h: H.Heap, v: H.Value, digits: Digits)
    requires DigitsOk(digits)
    ensures AnyText(g, u, digits) == AnyText(h, v, digits) <==>
      Meaning(H.Hardened(g, u, Unlimited).o, digits) == Meaning(H.Hardened(h, v, Unlimited).o, digits)
  {
    hide *;
    AnyTextIsHardened(g, u, digits);
    AnyTextIsHardened(h, v, digits);
    MeaningValid(H.Hardened(g, u, Unlimited).o, digits);
    MeaningValid(H.Hardened(h, v, Unlimited).o, digits);
    PrintInjective(Meaning(H.Hardened(g, u, Unlimited).o, digits), Meaning(H.Hardened(h, v, Unlimited).o, digits));
  }

  /** A value of another type nested in a JSON-shaped one: where the output has its position, it shows what
      hardening without limits leaves of it, whatever else surrounds it. */
  lemma NestedIsHardened(
    g: C.Heap, u: C.Value, p: Paths.Path, h: H.Heap, v: H.Value, next: nat, digits: Digits)
    requires var c := T.Embed(H.Hardened(h, v, Unlimited).o, next);
      Paths.ValueAt(g, u, p) == Some(AsValue(c.v, digits)) && Contains(g, c.h, digits) &&
      Clear(Paths.OpenOn(g, u, p), next, c.next)
    requires Paths.JsonAt(C.Tree(g, u, {}), p).Some?
    ensures Paths.JsonAt(C.Tree(g, u, {}), p) == Some(Meaning(H.Hardened(h, v, Unlimited).o, digits))
  {
    hide H.Hardened, Meaning, C.Tree, Contains, AsValue, Paths.ValueAt, Paths.OpenOn;
    var o := H.Hardened(h, v, Unlimited).o;
    Paths.TreeAt(g, u, p, {});
    assert {} + Paths.OpenOn(g, u, p) == Paths.OpenOn(g, u, p);
    TreeOfCopy(T.Embed(o, next).h, g, o, next, Paths.OpenOn(g, u, p), digits);
  }

  // ---- written out in full ------------------------------------------------------------------------

  /** The text of v's complete unfolding, every shared part repeated. */
  ghost function FullText(h: H.Heap, v: H.Value, digits: Digits): string {
    Print(Meaning(U.Unfolded(h, v, Unlimited), digits))
  }

  /** Cutting a subtree to the sentinel shows in the JSON value, unless the sentinel stood there anyway. */
  lemma {:induction false} CutShows(a: H.Out, b: H.Out, digits: Digits)
    requires U.Pruned(a, b) && Meaning(a, digits) == Meaning(b, digits)
    ensures a == b
  {
    if a == H.OStr(H.REDACTED) {
      assert Meaning(b, digits) == Str(H.REDACTED);
    } else if a.OList? && b.OList? {
      forall i | 0 <= i < |a.items| ensures a.items[i] == b.items[i] {
        assert Meaning(a, digits).items[i] == Meaning(b, digits).items[i];
        CutShows(a.items[i], b.items[i], digits);
      }
    } else if a.OMap? && b.OMap? {
      forall k | k in a.m ensures a.m[k] == b.m[k] {
        assert Meaning(a, digits).members[k] == Meaning(b, digits).members[k];
        CutShows(a.m[k], b.m[k], digits);
      }
      assert a.m == b.m;
    }
  }

  lemma FullTextIffFull(h: H.Heap, v: H.Value, digits: Digits)
    requires DigitsOk(digits)
    ensures AnyText(h, v, digits) == FullText(h, v, digits) <==>
      H.Hardened(h, v, Unlimited).o == U.Unfolded(h, v, Unlimited)
  {
    var a, b := H.Hardened(h, v, Unlimited).o, U.Unfolded(h, v, Unlimited);
    U.ValuePruned(h, v, H.Walk({}, []), {}, 0, Unlimited);
    AnyTextIsHardened(h, v, digits);
    hide AnyText, Print, Meaning, H.HardenValue, U.Unfold, U.Pruned, Valid;
    MeaningValid(a, digits);
    MeaningValid(b, digits);
    PrintInjective(Meaning(a, digits), Meaning(b, digits));
    if Meaning(a, digits) == Meaning(b, digits) { CutShows(a, b, digits); }
  }

  /** A typed value is written out in full, shared parts repeated, exactly if no reference come to a second
      time stands at a kept place where something other than the sentinel would have been written. */
  lemma TypedInFullIff(h: H.Heap, v: H.Value, digits: Digits)
    requires DigitsOk(digits)
    ensures AnyText(h, v, digits) == FullText(h, v, digits) <==> !P.Loses(P.Visits(h, v, Unlimited), {})
  {
    hide AnyText, FullText, P.Loses, P.Reads, H.Hardened, U.Unfolded;
    FullTextIffFull(h, v, digits);
    P.InFullIff(h, v, Unlimited);
  }

  /** With clean map keys and differing struct names this can be read off the unfolding: exactly if no reference
      stands at two of its places, the later not the sentinel anyway. */
  lemma TypedInFullIffUnshared(h: H.Heap, v: H.Value, digits: Digits)
    requires DigitsOk(digits) && P.TypedHeap(h) && P.Typed(h, v) && P.TidyHeap(h) && P.Tidy(v)
    ensures AnyText(h, v, digits) == FullText(h, v, digits) <==> !P.Loses(P.Places(h, v, Unlimited), {})
  {
    hide AnyText, FullText, P.Loses, P.Reads, H.Hardened, U.Unfolded, P.Typed, P.TypedHeap, P.Tidy, P.TidyHeap,
      P.NothingDiscarded;
    FullTextIffFull(h, v, digits);
    P.TidyDiscardsNothing(h, v, Unlimited);
    P.InFullIffUnshared(h, v, Unlimited);
  }

  // ---- sharing in a typed value -------------------------------------------------------------------

  const Inner: H.Heap := map[0 := H.MapNode(true, map["x" := H.Bool(true)], None)]

  /** A struct with one map in two fields. */
  const Pair := H.Struct([H.Field("A", H.Map(0)), H.Field("B", H.Map(0))])

  /** Hardening expands a shared map once, so the digest of a struct holding one map twice has the sentinel in
      the second place, where a JSON-shaped map holding it twice is written in full. */
  lemma TypedSharingCollapses(lim: H.Limits)
    requires lim.maxDepth >= 2 && lim.maxAttrs <= 0
    ensures var o := H.Hardened(Inner, Pair, lim).o;
      o.OMap? && o.m.Keys == {"A", "B"} && o.m["A"].OMap? && o.m["B"] == H.OStr(H.REDACTED)
  {
    hide H.HardenFields, H.HardenSorted, H.HardenValue, H.Grew;
    var w := H.Walk({}, []);
    PairIsFields(w, lim);
    assert "x" in Inner[0].entries;
    HardenShared.MapEntered(Inner, 0, w, 1, lim);
    var a := H.HardenValue(Inner, H.Map(0), w, 1, lim);
    MetAgain(a.w, lim);
    FieldsInTurn(w, a, H.HardenValue(Inner, H.Map(0), a.w, 1, lim), lim);
  }

  lemma PairIsFields(w: H.Walk, lim: H.Limits)
    requires lim.maxDepth >= 2
    ensures H.HardenValue(Inner, Pair, w, 0, lim).o == H.HardenFields(Inner, Pair.fields, map[], w, 0, lim).o
  {
    hide H.HardenFields, H.HardenValue, H.Grew;
    T.Enter(Inner, Pair, w, 0, lim);
    assert H.HardenPlain(Inner, Pair, w, 0, lim).o == H.HardenFields(Inner, Pair.fields, map[], w, 0, lim).o;
  }

  lemma FieldsInTurn(w: H.Walk, a: H.Res, b: H.Res, lim: H.Limits)
    requires a == H.HardenValue(Inner, H.Map(0), w, 1, lim) && b == H.HardenValue(Inner, H.Map(0), a.w, 1, lim) &&
      lim.maxAttrs <= 0
    ensures H.HardenFields(Inner, Pair.fields, map[], w, 0, lim).o == H.OMap(map["A" := a.o, "B" := b.o])
  {
    hide H.HardenFields, H.HardenValue, H.Grew, H.Left;
    var fields := Pair.fields;
    H.FieldsUnroll(Inner, fields, map[], w, 0, lim);
    H.FieldsUnroll(Inner, fields[1..], map["A" := a.o], a.w, 0, lim);
    H.FieldsUnroll(Inner, fields[1..][1..], map["A" := a.o, "B" := b.o], b.w, 0, lim);
    assert map["A" := a.o]["B" := b.o] == map["A" := a.o, "B" := b.o];
  }

  lemma MetAgain(w: H.Walk, lim: H.Limits)
    requires 0 in w.seen
    ensures H.HardenValue(Inner, H.Map(0), w, 1, lim).o == H.OStr(H.REDACTED)
  {
    hide H.Grew;
    assert "x" in H.Entries(Inner, 0);
    assert H.Follow(Inner, H.Map(0), w, lim) == H.Reached(H.Map(0), w);
    assert H.Identity(Inner, H.Map(0)) == Some(0);
  }

  /** One pointer held twice is enough: a pair of the same *int comes out as the number and the sentinel. */
  lemma PointerTwiceCollapses(lim: H.Limits)
    requires lim.maxDepth >= 1
    ensures H.Hardened(IntHeap, H.Array(TwoInts), lim).o == H.OList([H.OInt(5), H.OStr(H.REDACTED)])
  {
    hide H.HardenItems, H.HardenValue, H.Grew;
    var w := H.Walk({}, []);
    T.Enter(IntHeap, H.Array(TwoInts), w, 0, lim);
    assert H.HardenPlain(IntHeap, H.Array(TwoInts), w, 0, lim).o ==
      H.OList(H.HardenItems(IntHeap, TwoInts, w, 0, lim).os);
    IntsInTurn(w, lim);
  }

  const IntHeap: H.Heap := map[0 := H.PtrNode(H.Int(5), None)]
  const TwoInts := [H.Ptr(0), H.Ptr(0)]

  lemma IntsInTurn(w: H.Walk, lim: H.Limits)
    requires 0 !in w.seen
    ensures H.HardenItems(IntHeap, TwoInts, w, 0, lim).os == [H.OInt(5), H.OStr(H.REDACTED)]
  {
    hide H.HardenItems, H.HardenValue, H.Grew, H.Left;
    var x := U.Entered(w, Some(0));
    IntMet(w, lim);
    H.ItemsUnroll(IntHeap, TwoInts, w, 0, lim);
    assert TwoInts[1..] == [H.Ptr(0)];
    H.ItemsUnroll(IntHeap, [H.Ptr(0)], x, 0, lim);
    assert [H.Ptr(0)][1..] == [];
    U.NoItems(IntHeap, x, 0, lim);
  }

  lemma IntMet(w: H.Walk, lim: H.Limits)
    requires 0 !in w.seen
    ensures var x := U.Entered(w, Some(0));
      H.HardenValue(IntHeap, H.Ptr(0), w, 1, lim) == H.Res(H.OInt(5), x) &&
      H.HardenValue(IntHeap, H.Ptr(0), x, 1, lim) == H.Res(H.OStr(H.REDACTED), x)
  {
    hide H.HardenValue, H.Grew, H.Left;
    var x := U.Entered(w, Some(0));
    U.PointerStep(IntHeap, H.Ptr(0), w, 1, lim);
    U.PointerStep(IntHeap, H.Ptr(0), x, 1, lim);
    T.Enter(IntHeap, H.Int(5), x, 1, lim);
    assert H.HardenPlain(IntHeap, H.Int(5), x, 1, lim) == H.Res(H.OInt(5), x);
  }
}
