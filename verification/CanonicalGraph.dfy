/** When the canonical text of a graph is the text of its full tree unfolding. */
module CanonicalGraph {
  import opened JsonText
  import opened CanonicalWalk

  /** j is the complete unfolding of v: every composite expanded at every occurrence. Defined by recursion
      on the tree, so a value that reaches itself has no unfolding. */
  ghost predicate Unfolds(h: Heap, v: Value, j: Json)
    decreases j
  {
    if v.VMap? then
      var m := Entries(h, v.id);
      j.Obj? && j.members.Keys == m.Keys && forall k :: k in m ==> Unfolds(h, m[k], j.members[k])
    else if v.VList? then
      var s := Items(h, v.id, v.len);
      j.Arr? && |j.items| == |s| && forall i :: 0 <= i < |s| ==> Unfolds(h, s[i], j.items[i])
    else
      j == Scalar(v)
  }

  lemma {:induction false} UnfoldsOnce(h: Heap, v: Value, j: Json, j': Json)
    requires Unfolds(h, v, j) && Unfolds(h, v, j')
    ensures j == j'
    decreases j
  {
    if v.VMap? {
      var m := Entries(h, v.id);
      forall k | k in m ensures j.members[k] == j'.members[k] {
        UnfoldsOnce(h, m[k], j.members[k], j'.members[k]);
      }
      assert j.members == j'.members;
    } else if v.VList? {
      var s := Items(h, v.id, v.len);
      forall i | 0 <= i < |s| ensures j.items[i] == j'.items[i] {
        UnfoldsOnce(h, s[i], j.items[i], j'.items[i]);
      }
      assert j.items == j'.items;
    }
  }

  lemma {:induction false} UnfoldsValid(h: Heap, v: Value, j: Json)
    requires Unfolds(h, v, j) && HeapOk(h) && ScalarOk(v)
    ensures Valid(j)
    decreases j
  {
    if v.VMap? {
      var m := Entries(h, v.id);
      forall k | k in j.members ensures Valid(j.members[k]) { UnfoldsValid(h, m[k], j.members[k]); }
    } else if v.VList? {
      var s := Items(h, v.id, v.len);
      forall i | 0 <= i < |s| ensures Valid(j.items[i]) { UnfoldsValid(h, s[i], j.items[i]); }
    } else {
      ScalarValid(v);
    }
  }

  /** No path downwards from v re-enters a composite that is open on it. */
  ghost predicate NoBackEdge(h: Heap, v: Value, path: set<Id>)
    decreases |h.Keys - path|
  {
    !Composite(v) || Empty(h, v) ||
    (v.id !in path &&
     (OpenDescends(h, path, v.id);
      if v.VMap? then
        var m := Entries(h, v.id);
        forall k :: k in m ==> NoBackEdge(h, m[k], path + {v.id})
      else
        var s := Items(h, v.id, v.len);
        forall i :: 0 <= i < |s| ==> NoBackEdge(h, s[i], path + {v.id})))
  }

  lemma NoBackEdgeClosed(h: Heap, v: Value, path: set<Id>)
    ensures !Composite(v) ==> NoBackEdge(h, v, path)
    ensures Composite(v) && Empty(h, v) ==> NoBackEdge(h, v, path)
    ensures Composite(v) && !Empty(h, v) && v.id in path ==> !NoBackEdge(h, v, path)
  {}

  lemma NoBackEdgeOpened(h: Heap, v: Value, path: set<Id>)
    requires Composite(v) && !Empty(h, v) && v.id !in path
    ensures var inner := path + {v.id};
      NoBackEdge(h, v, path) <==>
      if v.VMap? then forall k :: k in Entries(h, v.id) ==> NoBackEdge(h, Entries(h, v.id)[k], inner)
      else forall i :: 0 <= i < |Items(h, v.id, v.len)| ==> NoBackEdge(h, Items(h, v.id, v.len)[i], inner)
  {}

  /** The walk yields the full unfolding exactly when it meets no open composite. */
  lemma {:induction false} TreeUnfolds(h: Heap, v: Value, path: set<Id>)
    ensures Unfolds(h, v, Tree(h, v, path)) <==> NoBackEdge(h, v, path)
    decreases |h.Keys - path|
  {
    hide Tree, NoBackEdge, Scalar, Height;
    TreeClosed(h, v, path);
    NoBackEdgeClosed(h, v, path);
    if Composite(v) && !Empty(h, v) && v.id !in path {
      NonEmptyIsHeld(h, v);
      OpenDescends(h, path, v.id);
      TreeOpened(h, v, path);
      NoBackEdgeOpened(h, v, path);
      hide Entries, Items;
      var inner := path + {v.id};
      if v.VMap? {
        var m := Entries(h, v.id);
        forall k | k in m ensures Unfolds(h, m[k], Tree(h, m[k], inner)) <==> NoBackEdge(h, m[k], inner) {
          TreeUnfolds(h, m[k], inner);
        }
      } else {
        var s := Items(h, v.id, v.len);
        forall i | 0 <= i < |s| ensures Unfolds(h, s[i], Tree(h, s[i], inner)) <==> NoBackEdge(h, s[i], inner) {
          TreeUnfolds(h, s[i], inner);
        }
      }
    }
  }

  /** The canonical text of v is the text of its unfolding j exactly when no open composite is re-entered. */
  lemma TextIsUnfolding(h: Heap, v: Value, j: Json)
    requires HeapOk(h) && ScalarOk(v) && Unfolds(h, v, j)
    ensures Print(Tree(h, v, {})) == Print(j) <==> NoBackEdge(h, v, {})
  {
    hide *;
    TreeUnfolds(h, v, {});
    TreeValid(h, v, {});
    UnfoldsValid(h, v, j);
    PrintInjective(Tree(h, v, {}), j);
    if NoBackEdge(h, v, {}) { UnfoldsOnce(h, v, Tree(h, v, {}), j); }
  }

  // ---- acyclic graphs ---------------------------------------------------------------------------

  ghost function MaxOf(s: set<nat>): (r: nat)
    ensures forall x :: x in s ==> x <= r
  {
    if s == {} then 0 else
      var x :| x in s;
      var r := MaxOf(s - {x});
      assert forall y :: y in s ==> y == x || y in s - {x};
      if x <= r then r else x
  }

  ghost function Height(j: Json): nat {
    match j
    case Arr(items) => 1 + MaxOf(set i | 0 <= i < |items| :: Height(items[i]))
    case Obj(m) => 1 + MaxOf(set k | k in m :: Height(m[k]))
    case _ => 0
  }

  /** Every slice over a backing array is taken with the one length recorded for it. */
  predicate Uniform(v: Value, lens: map<Id, nat>) {
    v.VList? ==> v.id in lens && lens[v.id] == v.len
  }

  predicate HeapUniform(h: Heap, lens: map<Id, nat>) {
    forall id :: id in h ==>
      match h[id]
      case MapNode(m) => forall k :: k in m ==> Uniform(Resolved(m[k]), lens)
      case ListNode(s) => forall i :: 0 <= i < |s| ==> Uniform(Resolved(s[i]), lens)
  }

  /** A composite open above the current point, with its own unfolding. */
  datatype Ancestor = Ancestor(v: Value, j: Json)

  ghost predicate Above(h: Heap, lens: map<Id, nat>, open: map<Id, Ancestor>, j: Json) {
    forall p :: p in open ==>
      var a := open[p];
      Composite(a.v) && a.v.id == p && !Empty(h, a.v) && Uniform(a.v, lens)
      && Unfolds(h, a.v, a.j) && Height(j) < Height(a.j)
  }

  lemma SameNodeSameValue(h: Heap, lens: map<Id, nat>, a: Value, b: Value)
    requires Composite(a) && Composite(b) && a.id == b.id && !Empty(h, a) && !Empty(h, b)
    requires Uniform(a, lens) && Uniform(b, lens)
    ensures a == b
  {}

  lemma ChildLower(j: Json)
    ensures j.Arr? ==> forall i :: 0 <= i < |j.items| ==> Height(j.items[i]) < Height(j)
    ensures j.Obj? ==> forall k :: k in j.members ==> Height(j.members[k]) < Height(j)
  {
    if j.Arr? {
      var hs := set i | 0 <= i < |j.items| :: Height(j.items[i]);
      forall i | 0 <= i < |j.items| ensures Height(j.items[i]) < Height(j) { assert Height(j.items[i]) in hs; }
    } else if j.Obj? {
      var hs := set k | k in j.members :: Height(j.members[k]);
      forall k | k in j.members ensures Height(j.members[k]) < Height(j) { assert Height(j.members[k]) in hs; }
    }
  }

  lemma {:induction false} AcyclicDescent(h: Heap, lens: map<Id, nat>, v: Value, j: Json, open: map<Id, Ancestor>)
    requires HeapUniform(h, lens) && Uniform(v, lens) && Unfolds(h, v, j) && Above(h, lens, open, j)
    ensures NoBackEdge(h, v, open.Keys)
    decreases j
  {
    hide NoBackEdge, Scalar;
    NoBackEdgeClosed(h, v, open.Keys);
    if Composite(v) && !Empty(h, v) {
      if v.id in open {
        SameNodeSameValue(h, lens, v, open[v.id].v);
        UnfoldsOnce(h, v, j, open[v.id].j);
        assert false;
      }
      ChildLower(j);
      NoBackEdgeOpened(h, v, open.Keys);
      var open' := open[v.id := Ancestor(v, j)];
      assert open'.Keys == open.Keys + {v.id};
      if v.VMap? {
        var m := Entries(h, v.id);
        forall k | k in m ensures NoBackEdge(h, m[k], open'.Keys) {
          AcyclicDescent(h, lens, m[k], j.members[k], open');
        }
      } else {
        var s := Items(h, v.id, v.len);
        forall i | 0 <= i < |s| ensures NoBackEdge(h, s[i], open'.Keys) {
          AcyclicDescent(h, lens, s[i], j.items[i], open');
        }
      }
    }
  }

  /** On every acyclic graph whose slices are not prefixes of one another, shared subtrees are written out
      at each occurrence: the text is that of the full unfolding. */
  lemma AcyclicPrintsInFull(h: Heap, lens: map<Id, nat>, v: Value, j: Json)
    requires HeapOk(h) && ScalarOk(v) && HeapUniform(h, lens) && Uniform(v, lens) && Unfolds(h, v, j)
    ensures Print(Tree(h, v, {})) == Print(j)
  {
    var open: map<Id, Ancestor> := map[];
    assert open.Keys == {};
    AcyclicDescent(h, lens, v, j, open);
    TextIsUnfolding(h, v, j);
  }

  /** A slice and a prefix of it share a first element, hence an identity: an acyclic value that holds a
      prefix of itself loses it to null. */
  lemma PrefixSharingPrintsNull()
    ensures var h: Heap := map[0 := ListNode([Shaped(VBool(true)), Shaped(VList(0, 1))])];
      var v := VList(0, 2);
      Unfolds(h, v, Arr([Bool(true), Arr([Bool(true)])]))
      && Tree(h, v, {}) == Arr([Bool(true), Null])
  {
    var h: Heap := map[0 := ListNode([Shaped(VBool(true)), Shaped(VList(0, 1))])];
    var v := VList(0, 2);
    assert Items(h, 0, 2) == [VBool(true), VList(0, 1)] && Items(h, 0, 1) == [VBool(true)];
    TreeOpened(h, v, {});
    assert !Empty(h, VList(0, 1));
    assert Unfolds(h, VList(0, 1), Arr([Bool(true)]));
  }
}
