/** What canonicalization writes at every position: a position is a path of keys and indices, read in the
    graph on one side and in the output on the other. */
module CanonicalPaths {
  import opened Common
  import opened JsonText
  import opened CanonicalWalk
  import opened CanonicalGraph

  datatype Hop = Key(k: string) | Index(i: nat)

  type Path = seq<Hop>

  function Child(h: Heap, v: Value, hop: Hop): Option<Value> {
    match hop
    case Key(k) => if v.VMap? && k in Entries(h, v.id) then Some(Entries(h, v.id)[k]) else None
    case Index(i) => if v.VList? && i < |Items(h, v.id, v.len)| then Some(Items(h, v.id, v.len)[i]) else None
  }

  /** The value the graph holds at p. */
  function ValueAt(h: Heap, v: Value, p: Path): Option<Value>
    decreases |p|
  {
    if p == [] then Some(v)
    else if Child(h, v, p[0]).None? then None
    else ValueAt(h, Child(h, v, p[0]).value, p[1..])
  }

  function Member(j: Json, hop: Hop): Option<Json> {
    match hop
    case Key(k) => if j.Obj? && k in j.members then Some(j.members[k]) else None
    case Index(i) => if j.Arr? && i < |j.items| then Some(j.items[i]) else None
  }

  /** The value the output holds at p. */
  function JsonAt(j: Json, p: Path): Option<Json>
    decreases |p|
  {
    if p == [] then Some(j)
    else if Member(j, p[0]).None? then None
    else JsonAt(Member(j, p[0]).value, p[1..])
  }

  /** A composite with an identity; empty ones have none. */
  predicate Tracked(h: Heap, v: Value) { Composite(v) && !Empty(h, v) }

  predicate IsNode(h: Heap, x: Option<Value>, id: Id) { x.Some? && Tracked(h, x.value) && x.value.id == id }

  /** p ends at a composite that is in `open`, or that p has already met on its way. */
  ghost predicate Revisits(h: Heap, v: Value, p: Path, open: set<Id>) {
    var x := ValueAt(h, v, p);
    x.Some? && Tracked(h, x.value) &&
    (x.value.id in open || exists n :: 0 <= n < |p| && IsNode(h, ValueAt(h, v, p[..n]), x.value.id))
  }

  lemma ChildTracked(h: Heap, v: Value, hop: Hop)
    requires Child(h, v, hop).Some?
    ensures Tracked(h, v) && v.id in h
  {}

  lemma ValueAtStep(h: Heap, v: Value, p: Path, n: nat)
    requires 0 < n <= |p| && Child(h, v, p[0]).Some?
    ensures ValueAt(h, v, p[..n]) == ValueAt(h, Child(h, v, p[0]).value, p[1..][..n - 1])
  {
    assert p[..n][0] == p[0] && p[..n][1..] == p[1..][..n - 1];
  }

  /** Stepping to a child opens its parent. */
  lemma RevisitsStep(h: Heap, v: Value, p: Path, open: set<Id>)
    requires p != [] && Child(h, v, p[0]).Some?
    ensures Revisits(h, v, p, open) <==> Revisits(h, Child(h, v, p[0]).value, p[1..], open + {v.id})
  {
    hide Child, Entries, Items, Empty;
    var c, q := Child(h, v, p[0]).value, p[1..];
    ChildTracked(h, v, p[0]);
    assert p[..|p|] == p && q[..|q|] == q;
    ValueAtStep(h, v, p, |p|);
    var x := ValueAt(h, v, p);
    assert p[..0] == [];
    if x.Some? && Tracked(h, x.value) {
      var id := x.value.id;
      if n :| 0 <= n < |p| && IsNode(h, ValueAt(h, v, p[..n]), id) {
        if n > 0 {
          ValueAtStep(h, v, p, n);
          assert IsNode(h, ValueAt(h, c, q[..n - 1]), id);
        }
      }
      if n :| 0 <= n < |q| && IsNode(h, ValueAt(h, c, q[..n]), id) {
        ValueAtStep(h, v, p, n + 1);
        assert IsNode(h, ValueAt(h, v, p[..n + 1]), id);
      }
      if id == v.id {
        assert IsNode(h, ValueAt(h, v, p[..0]), id);
      }
    }
  }

  /** What the output shows for x: null for a composite met before, and otherwise x itself, a composite with
      exactly its keys or its length. */
  predicate Shows(h: Heap, x: Value, revisit: bool, j: Json) {
    if revisit then j == Null
    else
      match x
      case VMap(id) => j.Obj? && j.members.Keys == Entries(h, id).Keys
      case VList(id, len) => j.Arr? && |j.items| == |Items(h, id, len)|
      case _ => j == Scalar(x)
  }

  lemma TreeTop(h: Heap, v: Value, open: set<Id>)
    ensures Shows(h, v, Revisits(h, v, [], open), Tree(h, v, open))
  {
    hide Tree;
    TreeClosed(h, v, open);
    if Composite(v) && (Empty(h, v) || v.id !in open) { TreeOpened(h, v, open); }
  }

  /** The output's members are the outputs of the graph's children, with v open; a composite met before has none. */
  lemma TreeStep(h: Heap, v: Value, open: set<Id>, hop: Hop)
    ensures Member(Tree(h, v, open), hop) ==
      if Child(h, v, hop).Some? && v.id !in open then Some(Tree(h, Child(h, v, hop).value, open + {v.id})) else None
  {
    hide Tree;
    TreeClosed(h, v, open);
    if Composite(v) && (Empty(h, v) || v.id !in open) { TreeOpened(h, v, open); }
  }

  ghost predicate Clear(h: Heap, v: Value, p: Path, open: set<Id>) {
    forall n :: 0 <= n < |p| ==> !Revisits(h, v, p[..n], open)
  }

  lemma ClearStep(h: Heap, v: Value, p: Path, open: set<Id>)
    requires p != [] && Child(h, v, p[0]).Some?
    ensures Clear(h, v, p, open) <==> v.id !in open && Clear(h, Child(h, v, p[0]).value, p[1..], open + {v.id})
  {
    hide Child, Revisits;
    var c, q := Child(h, v, p[0]).value, p[1..];
    ChildTracked(h, v, p[0]);
    assert p[..0] == [];
    assert Revisits(h, v, [], open) <==> v.id in open by { RevisitsHere(h, v, open); }
    forall n | 0 < n <= |p| ensures Revisits(h, v, p[..n], open) <==> Revisits(h, c, q[..n - 1], open + {v.id}) {
      assert p[..n][0] == p[0] && p[..n][1..] == q[..n - 1];
      RevisitsStep(h, v, p[..n], open);
    }
    if Clear(h, v, p, open) {
      forall n | 0 <= n < |q| ensures !Revisits(h, c, q[..n], open + {v.id}) {
        assert !Revisits(h, v, p[..n + 1], open);
      }
    } else {
      var n :| 0 <= n < |p| && Revisits(h, v, p[..n], open);
      assert n > 0 ==> Revisits(h, c, q[..n - 1], open + {v.id});
    }
  }

  lemma RevisitsHere(h: Heap, v: Value, open: set<Id>)
    ensures Revisits(h, v, [], open) <==> Tracked(h, v) && v.id in open
  {}

  lemma {:induction false} AtPosition(h: Heap, v: Value, p: Path, open: set<Id>)
    ensures JsonAt(Tree(h, v, open), p).Some? <==> ValueAt(h, v, p).Some? && Clear(h, v, p, open)
    ensures JsonAt(Tree(h, v, open), p).Some? ==>
      Shows(h, ValueAt(h, v, p).value, Revisits(h, v, p, open), JsonAt(Tree(h, v, open), p).value)
    decreases |p|
  {
    hide Tree, Child, Member, Revisits, Shows, Clear;
    if p == [] {
      TreeTop(h, v, open);
      ClearNow(h, v, open);
    } else {
      TreeStep(h, v, open, p[0]);
      if Child(h, v, p[0]).Some? {
        var c := Child(h, v, p[0]).value;
        ChildTracked(h, v, p[0]);
        ClearStep(h, v, p, open);
        RevisitsStep(h, v, p, open);
        AtPosition(h, c, p[1..], open + {v.id});
      }
    }
  }

  lemma ClearNow(h: Heap, v: Value, open: set<Id>)
    ensures Clear(h, v, [], open)
  {}

  /** On every graph: the output has a position exactly if the graph does and no shorter part of the path ends
      at a composite met twice; there it is null exactly for nil, for a non-finite float and for a composite
      the path has met before, and it shows the graph's own value everywhere else. */
  lemma NullExactlyAtRevisits(h: Heap, v: Value, p: Path)
    ensures var j := JsonAt(Tree(h, v, {}), p);
      j.Some? <==> ValueAt(h, v, p).Some? && forall n :: 0 <= n < |p| ==> !Revisits(h, v, p[..n], {})
    ensures var j := JsonAt(Tree(h, v, {}), p);
      j.Some? ==> Shows(h, ValueAt(h, v, p).value, Revisits(h, v, p, {}), j.value)
    ensures var j := JsonAt(Tree(h, v, {}), p);
      j.Some? ==>
        (j.value == Null <==>
         Revisits(h, v, p, {}) || ValueAt(h, v, p).value == VNil || ValueAt(h, v, p).value == VFloat(NonFinite))
  {
    hide Tree, Revisits;
    AtPosition(h, v, p, {});
  }

  /** The composites p passes through on its way. */
  function OpenOn(h: Heap, v: Value, p: Path): set<Id>
    decreases |p|
  {
    if p == [] || !Composite(v) || Child(h, v, p[0]).None? then {}
    else {v.id} + OpenOn(h, Child(h, v, p[0]).value, p[1..])
  }

  /** What the output has at p is what the walk writes there with the composites on the way open. */
  lemma {:induction false} TreeAt(h: Heap, v: Value, p: Path, open: set<Id>)
    requires JsonAt(Tree(h, v, open), p).Some?
    ensures ValueAt(h, v, p).Some?
    ensures JsonAt(Tree(h, v, open), p) == Some(Tree(h, ValueAt(h, v, p).value, open + OpenOn(h, v, p)))
    decreases |p|
  {
    hide Tree, Child, Member;
    if p == [] {
      assert open + {} == open;
    } else {
      TreeStep(h, v, open, p[0]);
      var c := Child(h, v, p[0]).value;
      ChildTracked(h, v, p[0]);
      TreeAt(h, c, p[1..], open + {v.id});
      assert open + {v.id} + OpenOn(h, c, p[1..]) == open + OpenOn(h, v, p);
    }
  }

  // ---- no path meets a composite twice ------------------------------------------------------------

  ghost predicate NeverRevisits(h: Heap, v: Value, open: set<Id>) { forall p :: !Revisits(h, v, p, open) }

  lemma ChildrenNeverRevisit(h: Heap, v: Value, open: set<Id>, hop: Hop)
    requires NeverRevisits(h, v, open) && Child(h, v, hop).Some?
    ensures NeverRevisits(h, Child(h, v, hop).value, open + {v.id})
  {
    hide Child, Revisits;
    var c := Child(h, v, hop).value;
    ChildTracked(h, v, hop);
    forall q ensures !Revisits(h, c, q, open + {v.id}) {
      var p := [hop] + q;
      assert p[0] == hop && p[1..] == q;
      RevisitsStep(h, v, p, open);
    }
  }

  lemma NeverRevisitsFromChildren(h: Heap, v: Value, open: set<Id>)
    requires Tracked(h, v) ==> v.id !in open
    requires forall hop :: Child(h, v, hop).Some? ==> NeverRevisits(h, Child(h, v, hop).value, open + {v.id})
    ensures NeverRevisits(h, v, open)
  {
    hide Child;
    forall p ensures !Revisits(h, v, p, open) {
      RevisitsHere(h, v, open);
      if p != [] && Child(h, v, p[0]).Some? {
        ChildTracked(h, v, p[0]);
        RevisitsStep(h, v, p, open);
        assert NeverRevisits(h, Child(h, v, p[0]).value, open + {v.id});
      }
    }
  }

  /** The walk finds no back edge exactly if no path meets a composite twice. */
  lemma {:induction false} NoBackEdgeIff(h: Heap, v: Value, open: set<Id>)
    ensures NoBackEdge(h, v, open) <==> NeverRevisits(h, v, open)
    decreases |h.Keys - open|
  {
    hide NoBackEdge, NeverRevisits, Child, Entries, Items, Empty;
    NoBackEdgeClosed(h, v, open);
    if !Tracked(h, v) {
      forall hop ensures Child(h, v, hop).None? { if Child(h, v, hop).Some? { ChildTracked(h, v, hop); } }
      NeverRevisitsFromChildren(h, v, open);
    } else if v.id in open {
      HereRevisits(h, v, open);
    } else {
      NonEmptyIsHeld(h, v);
      OpenDescends(h, open, v.id);
      var inner := open + {v.id};
      forall hop | Child(h, v, hop).Some?
        ensures NoBackEdge(h, Child(h, v, hop).value, inner) <==> NeverRevisits(h, Child(h, v, hop).value, inner)
      {
        NoBackEdgeIff(h, Child(h, v, hop).value, inner);
      }
      NoBackEdgeChildren(h, v, open);
      NeverRevisitsChildren(h, v, open);
    }
  }

  lemma NeverRevisitsChildren(h: Heap, v: Value, open: set<Id>)
    requires Tracked(h, v) && v.id !in open
    ensures NeverRevisits(h, v, open) <==>
      forall hop :: Child(h, v, hop).Some? ==> NeverRevisits(h, Child(h, v, hop).value, open + {v.id})
  {
    hide NeverRevisits, Child, Entries, Items, Empty;
    if NeverRevisits(h, v, open) {
      forall hop | Child(h, v, hop).Some? ensures NeverRevisits(h, Child(h, v, hop).value, open + {v.id}) {
        ChildrenNeverRevisit(h, v, open, hop);
      }
    } else if forall hop :: Child(h, v, hop).Some? ==> NeverRevisits(h, Child(h, v, hop).value, open + {v.id}) {
      NeverRevisitsFromChildren(h, v, open);
    }
  }

  lemma HereRevisits(h: Heap, v: Value, open: set<Id>)
    requires Tracked(h, v) && v.id in open
    ensures !NeverRevisits(h, v, open)
  {
    assert Revisits(h, v, [], open);
  }

  lemma NoBackEdgeChildren(h: Heap, v: Value, open: set<Id>)
    requires Tracked(h, v) && v.id !in open
    ensures NoBackEdge(h, v, open) <==>
      forall hop :: Child(h, v, hop).Some? ==> NoBackEdge(h, Child(h, v, hop).value, open + {v.id})
  {
    NoBackEdgeOpened(h, v, open);
    hide NoBackEdge;
    var inner := open + {v.id};
    if forall hop :: Child(h, v, hop).Some? ==> NoBackEdge(h, Child(h, v, hop).value, inner) {
      forall k | v.VMap? && k in Entries(h, v.id) ensures NoBackEdge(h, Entries(h, v.id)[k], inner) {
        assert Child(h, v, Key(k)).Some?;
      }
      forall i | v.VList? && 0 <= i < |Items(h, v.id, v.len)| ensures NoBackEdge(h, Items(h, v.id, v.len)[i], inner) {
        assert Child(h, v, Index(i)).Some?;
      }
    }
  }

  /** The text of v is the text of its unfolding j exactly if no path from v meets a composite twice. */
  lemma InFullIffNeverRevisits(h: Heap, v: Value, j: Json)
    requires HeapOk(h) && ScalarOk(v) && Unfolds(h, v, j)
    ensures Print(Tree(h, v, {})) == Print(j) <==> forall p :: !Revisits(h, v, p, {})
  {
    hide Print, Tree, NoBackEdge, Revisits, Unfolds, HeapOk;
    NoBackEdgeIff(h, v, {});
    TextIsUnfolding(h, v, j);
  }
}
