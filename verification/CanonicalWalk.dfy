/** Canonicalization of a heap graph of maps and lists (go/canonicaljson.go).

    `path` holds the identity of every non-empty composite open above the current point. A composite met
    while open prints null; the identity is removed when its subtree completes.

    A map value is identified by its node. A slice value is a node (its backing array, identified by the
    address of the first element) together with a length, and Go tracks it by the node alone. */
module CanonicalWalk {
  import opened Common
  import opened Ordering
  import opened Decimal
  import opened JsonText

  type Id = nat

  datatype Float = NonFinite | FloatZero | Finite(neg: bool, digits: string, n: int)

  datatype Value =
    | VNil
    | VBool(b: bool)
    | VStr(s: string)
    | VInt(i: int)          // int64
    | VUint(u: nat)         // uint64
    | VFloat(f: Float)
    | VMap(id: Id)
    | VList(id: Id, len: nat)

  /** What an interface holds: a JSON-shaped value, or a value of any other Go type, which the walk hardens as it
      comes to it; hardened is what Harden returns for it, in nodes of its own. */
  datatype Slot = Shaped(value: Value) | Other(hardened: Value)

  datatype Node = MapNode(entries: map<string, Slot>) | ListNode(items: seq<Slot>)

  type Heap = map<Id, Node>

  const INT64_LIMIT := 0x8000_0000_0000_0000
  const UINT64_LIMIT := 0x1_0000_0000_0000_0000

  /** Scalars are in the range of their Go type, and float digits are FormatFloat's. */
  predicate ScalarOk(v: Value) {
    match v
    case VInt(i) => -INT64_LIMIT <= i < INT64_LIMIT
    case VUint(u) => u < UINT64_LIMIT
    case VFloat(Finite(_, d, _)) => Normal(d)
    case _ => true
  }

  predicate HeapOk(h: Heap) {
    forall id :: id in h ==>
      match h[id]
      case MapNode(m) => forall k :: k in m ==> ScalarOk(Resolved(m[k]))
      case ListNode(s) => forall i :: 0 <= i < |s| ==> ScalarOk(Resolved(s[i]))
  }

  /** The value the walk goes on with: its default case calls itself on the hardened value. */
  function Resolved(s: Slot): Value { if s.Shaped? then s.value else s.hardened }

  /** A nil map or slice, and any value that is not of the asked kind, reads as empty. */
  function Entries(h: Heap, id: Id): map<string, Value> {
    if id in h && h[id].MapNode? then map k | k in h[id].entries :: Resolved(h[id].entries[k]) else map[]
  }

  function Items(h: Heap, id: Id, len: nat): seq<Value> {
    if id in h && h[id].ListNode? then
      var n := if len <= |h[id].items| then len else |h[id].items|;
      seq(n, i requires 0 <= i < n => Resolved(h[id].items[i]))
    else []
  }

  predicate Composite(v: Value) { v.VMap? || v.VList? }

  predicate Empty(h: Heap, v: Value)
    requires Composite(v)
  {
    if v.VMap? then Entries(h, v.id) == map[] else Items(h, v.id, v.len) == []
  }

  // ---- the value printed ------------------------------------------------------------------------

  function Signed(neg: bool, v: nat): (j: Json)
    ensures j == Zero <==> v == 0
  {
    if v == 0 then Zero else var (d, n) := NatPair(v); Num(neg, d, n)
  }

  function Scalar(v: Value): Json
    requires !Composite(v)
  {
    match v
    case VNil => Null
    case VBool(b) => Bool(b)
    case VStr(s) => Str(s)
    case VInt(i) => Signed(i < 0, if i < 0 then -i else i)
    case VUint(u) => Signed(false, u)
    case VFloat(NonFinite) => Null
    case VFloat(FloatZero) => Zero
    case VFloat(Finite(neg, d, n)) => Num(neg, d, n)
  }

  /** The JSON value whose text is written for v while `path` is open. */
  ghost function Tree(h: Heap, v: Value, path: set<Id>): Json
    decreases |h.Keys - path|
  {
    if !Composite(v) then Scalar(v)
    else if Empty(h, v) then (if v.VMap? then Obj(map[]) else Arr([]))
    else if v.id in path then Null
    else
      assert h.Keys - (path + {v.id}) < h.Keys - path by { assert v.id in h; }
      Smaller(h.Keys - (path + {v.id}), h.Keys - path);
      if v.VMap? then
        var m := Entries(h, v.id);
        Obj(map k | k in m :: Tree(h, m[k], path + {v.id}))
      else
        var s := Items(h, v.id, v.len);
        Arr(seq(|s|, i requires 0 <= i < |s| => Tree(h, s[i], path + {v.id})))
  }

  lemma SignedValid(neg: bool, v: nat)
    ensures Valid(Signed(neg, v))
  {
    if v > 0 { TrimRightSplit(NatText(v)); }
  }

  lemma ScalarValid(v: Value)
    requires !Composite(v) && ScalarOk(v)
    ensures Valid(Scalar(v))
  {
    if v.VInt? {
      SignedValid(v.i < 0, if v.i < 0 then -v.i else v.i);
    } else if v.VUint? {
      SignedValid(false, v.u);
    }
  }

  lemma CompositeValid(j: Json)
    ensures j == Null ==> Valid(j)
    ensures j.Arr? && (forall i :: 0 <= i < |j.items| ==> Valid(j.items[i])) ==> Valid(j)
    ensures j.Obj? && (forall k :: k in j.members ==> Valid(j.members[k])) ==> Valid(j)
  {}

  lemma {:induction false} TreeValid(h: Heap, v: Value, path: set<Id>)
    requires HeapOk(h) && ScalarOk(v)
    ensures Valid(Tree(h, v, path))
    decreases |h.Keys - path|
  {
    hide Tree, Entries, Items, HeapOk, Scalar, Valid, ScalarOk, Empty;
    TreeClosed(h, v, path);
    CompositeValid(Tree(h, v, path));
    if !Composite(v) {
      ScalarValid(v);
    } else if !Empty(h, v) && v.id !in path {
      TreeOpened(h, v, path);
      NonEmptyIsHeld(h, v);
      OpenDescends(h, path, v.id);
      ChildrenOk(h, v);
      var inner := path + {v.id};
      if v.VMap? {
        var m := Entries(h, v.id);
        forall k | k in m ensures Valid(Tree(h, m[k], inner)) { TreeValid(h, m[k], inner); }
      } else {
        var s := Items(h, v.id, v.len);
        forall i | 0 <= i < |s| ensures Valid(Tree(h, s[i], inner)) { TreeValid(h, s[i], inner); }
      }
    }
  }

  lemma ChildrenOk(h: Heap, v: Value)
    requires HeapOk(h) && Composite(v)
    ensures forall k :: k in Entries(h, v.id) ==> ScalarOk(Entries(h, v.id)[k])
    ensures v.VList? ==> forall i :: 0 <= i < |Items(h, v.id, v.len)| ==> ScalarOk(Items(h, v.id, v.len)[i])
  {}

  // ---- the walk -----------------------------------------------------------------------------------

  /** appendCanonical's scalar cases, as Go spells them. */
  function ScalarText(v: Value): string
    requires !Composite(v) && ScalarOk(v)
  {
    match v
    case VNil => "null"
    case VBool(b) => if b then "true" else "false"
    case VStr(s) => PrintString(s)
    case VInt(i) => IntText(i)
    case VUint(u) => NatText(u)
    case VFloat(NonFinite) => "null"
    case VFloat(FloatZero) => "0"
    case VFloat(Finite(neg, d, n)) => (if neg then "-" else "") + CanonicalDigits(d, n)
  }

  lemma IntegerTextIsCanonical(neg: bool, v: nat)
    requires v < Pow10(21)
    ensures v > 0 ==> (if neg then "-" else "") + NatText(v) == Print(Signed(neg, v))
    ensures v == 0 ==> NatText(v) == Print(Signed(neg, v))
  {
    if v > 0 {
      IntegersPrintCanonically(v);
      hide NatText, CanonicalDigits, Normal, Same;
      assert NatPair(v).0 != "" by { hide NatPair; }
    }
  }

  lemma ScalarTextIsCanonical(v: Value)
    requires !Composite(v) && ScalarOk(v)
    ensures ScalarText(v) == Print(Scalar(v))
  {
    Uint64Fits();
    hide NatText, CanonicalDigits, Signed;
    if v.VInt? {
      IntegerTextIsCanonical(v.i < 0, if v.i < 0 then -v.i else v.i);
    } else if v.VUint? {
      IntegerTextIsCanonical(false, v.u);
      assert "" + NatText(v.u) == NatText(v.u);
    }
  }

  /** PrintItems and PrintMembers grow at the end, as the loops do. */
  lemma {:induction false} PrintItemsSnoc(s: seq<Json>, j: Json)
    ensures PrintItems(s + [j]) == PrintItems(s) + (if s == [] then "" else ",") + Print(j)
  {
    hide Print;
    if s == [] {
      assert s + [j] == [j];
      assert PrintItems([j]) == Print(j);
    } else {
      PrintItemsSnoc(s[1..], j);
      assert (s + [j])[1..] == s[1..] + [j] && (s + [j])[0] == s[0];
      assert |s| == 1 ==> s[1..] == [];
    }
  }

  lemma {:induction false} PrintMembersSnoc(j: Json, keys: seq<string>, k: string)
    requires j.Obj? && k in j.members
    ensures PrintMembers(j, keys + [k])
         == PrintMembers(j, keys) + (if keys == [] then "" else ",") + (PrintString(k) + ":" + Print(j.members[k]))
    decreases |keys|
  {
    hide Print, PrintString;
    if keys == [] {
      assert keys + [k] == [k];
    } else {
      PrintMembersSnoc(j, keys[1..], k);
      assert (keys + [k])[1..] == keys[1..] + [k] && (keys + [k])[0] == keys[0];
      assert |keys| == 1 ==> keys[1..] == [];
    }
  }

  lemma MembersAppended(base: string, j: Json, keys: seq<string>, i: nat)
    requires j.Obj? && i < |keys| && keys[i] in j.members
    ensures base + PrintMembers(j, keys[..i]) + (if i > 0 then "," else "") + PrintString(keys[i]) + ":"
              + Print(j.members[keys[i]])
         == base + PrintMembers(j, keys[..i + 1])
  {
    hide *;
    PrintMembersSnoc(j, keys[..i], keys[i]);
    assert keys[..i + 1] == keys[..i] + [keys[i]];
  }

  lemma NoMembers(j: Json, keys: seq<string>)
    requires j.Obj?
    ensures PrintMembers(j, keys[..0]) == ""
  {}

  lemma NoItems(js: seq<Json>)
    ensures PrintItems(js[..0]) == ""
  {}

  lemma ItemsAppended(base: string, js: seq<Json>, i: nat)
    requires i < |js|
    ensures base + PrintItems(js[..i]) + (if i > 0 then "," else "") + Print(js[i]) == base + PrintItems(js[..i + 1])
  {
    hide *;
    PrintItemsSnoc(js[..i], js[i]);
    assert js[..i + 1] == js[..i] + [js[i]];
  }

  lemma NullPrints()
    ensures Print(Null) == "null"
  {}

  lemma CompositeAppended(base: string, j: Json)
    requires j.Obj? || j.Arr?
    ensures j.Obj? ==> base + "{" + PrintMembers(j, SortedMembers(j.members)) + "}" == base + Print(j)
    ensures j.Arr? ==> base + "[" + PrintItems(j.items) + "]" == base + Print(j)
  {
    hide PrintItems, PrintMembers, SortedMembers;
    if j.Obj? {
      assert Print(j) == "{" + PrintMembers(j, SortedMembers(j.members)) + "}";
    } else {
      assert Print(j) == "[" + PrintItems(j.items) + "]";
    }
  }

  lemma NonEmptyIsHeld(h: Heap, v: Value)
    requires Composite(v) && !Empty(h, v)
    ensures v.id in h
  {}

  /** The tree of a scalar, of an empty composite and of a back edge. */
  lemma TreeClosed(h: Heap, v: Value, path: set<Id>)
    ensures !Composite(v) ==> Tree(h, v, path) == Scalar(v)
    ensures Composite(v) && Empty(h, v) ==> Tree(h, v, path) == if v.VMap? then Obj(map[]) else Arr([])
    ensures Composite(v) && !Empty(h, v) && v.id in path ==> Tree(h, v, path) == Null
  {}

  /** What the tree of a composite that is not a back edge looks like. */
  lemma TreeOpened(h: Heap, v: Value, path: set<Id>)
    requires Composite(v) && (Empty(h, v) || v.id !in path)
    ensures var j := Tree(h, v, path); var inner := path + {v.id};
      if v.VMap? then
        var m := Entries(h, v.id);
        j.Obj? && j.members.Keys == m.Keys && forall k :: k in m ==> j.members[k] == Tree(h, m[k], inner)
      else
        var s := Items(h, v.id, v.len);
        j.Arr? && |j.items| == |s| && forall i :: 0 <= i < |s| ==> j.items[i] == Tree(h, s[i], inner)
  {}

  /** The path entry an open composite adds is new, so the walk's measure drops. */
  lemma OpenDescends(h: Heap, path: set<Id>, id: Id)
    requires id in h && id !in path
    ensures |h.Keys - (path + {id})| < |h.Keys - path|
    ensures path + {id} - {id} == path
  {
    assert id in h.Keys - path;
    Smaller(h.Keys - (path + {id}), h.Keys - path);
  }

  class Canonicalizer {
    var path: set<Id>
    var dst: string

    constructor ()
      ensures path == {} && dst == ""
    {
      path, dst := {}, "";
    }

    /** Writes the canonical text of v and leaves the path as it was. */
    method Append(h: Heap, v: Value)
      requires HeapOk(h) && ScalarOk(v)
      modifies this
      ensures dst == old(dst) + Print(Tree(h, v, old(path)))
      ensures path == old(path)
      decreases |h.Keys - path|, 2
    {
      if v.VMap? {
        AppendObject(h, v);
      } else if v.VList? {
        AppendArray(h, v);
      } else {
        ScalarTextIsCanonical(v);
        dst := dst + ScalarText(v);
      }
    }

    method AppendObject(h: Heap, v: Value)
      requires HeapOk(h) && v.VMap?
      modifies this
      ensures dst == old(dst) + Print(Tree(h, v, old(path)))
      ensures path == old(path)
      decreases |h.Keys - path|, 1
    {
      var obj := Entries(h, v.id);
      var tracked := obj != map[];
      if tracked {
        if v.id in path {
          dst := dst + "null";
          return;
        }
        OpenDescends(h, path, v.id);
        path := path + {v.id};
      }
      ghost var j := Tree(h, v, old(path));
      TreeOpened(h, v, old(path));
      ObjectOrder(obj, j);
      CompositeAppended(dst, j);
      var keys := CollectAndSort(Utf16, obj.Keys);
      dst := dst + "{";
      AppendMembers(h, obj, keys, j);
      dst := dst + "}";
      if tracked { path := path - {v.id}; }
    }

    method AppendMembers(h: Heap, obj: map<string, Value>, keys: seq<string>, ghost j: Json)
      requires HeapOk(h) && (forall k :: k in obj ==> ScalarOk(obj[k])) && (forall k :: k in keys ==> k in obj)
      requires j.Obj? && forall k :: k in obj ==> k in j.members && j.members[k] == Tree(h, obj[k], path)
      modifies this
      ensures dst == old(dst) + PrintMembers(j, keys)
      ensures path == old(path)
      decreases |h.Keys - path|, if keys == [] then 0 else 3
    {
      hide *;
      NoMembers(j, keys);
      var i := 0;
      while i < |keys|
        invariant 0 <= i <= |keys|
        invariant path == old(path)
        invariant dst == old(dst) + PrintMembers(j, keys[..i])
      {
        var key := keys[i];
        MembersAppended(old(dst), j, keys, i);
        dst := dst + if i > 0 then "," else "";
        dst := dst + PrintString(key);
        dst := dst + ":";
        Append(h, obj[key]);
        i := i + 1;
      }
      assert keys[..|keys|] == keys;
    }

    method AppendArray(h: Heap, v: Value)
      requires HeapOk(h) && v.VList?
      modifies this
      ensures dst == old(dst) + Print(Tree(h, v, old(path)))
      ensures path == old(path)
      decreases |h.Keys - path|, 1
    {
      hide Tree, HeapOk, ScalarOk, Items, PrintItems, Scalar, Print, Escape, PrintString, PrintMembers;
      ChildrenOk(h, v);
      TreeClosed(h, v, path);
      var items := Items(h, v.id, v.len);
      var tracked := items != [];
      if tracked {
        if v.id in path {
          NullPrints();
          dst := dst + "null";
          return;
        }
        NonEmptyIsHeld(h, v);
        OpenDescends(h, path, v.id);
        path := path + {v.id};
      }
      ghost var j := Tree(h, v, old(path));
      TreeOpened(h, v, old(path));
      CompositeAppended(dst, j);
      dst := dst + "[";
      AppendItems(h, items, j.items);
      dst := dst + "]";
      if tracked { path := path - {v.id}; }
    }

    method AppendItems(h: Heap, items: seq<Value>, ghost js: seq<Json>)
      requires HeapOk(h) && forall i :: 0 <= i < |items| ==> ScalarOk(items[i])
      requires |js| == |items| && forall i :: 0 <= i < |items| ==> js[i] == Tree(h, items[i], path)
      modifies this
      ensures dst == old(dst) + PrintItems(js)
      ensures path == old(path)
      decreases |h.Keys - path|, if items == [] then 0 else 3
    {
      hide *;
      NoItems(js);
      var i := 0;
      while i < |items|
        invariant 0 <= i <= |items|
        invariant path == old(path)
        invariant dst == old(dst) + PrintItems(js[..i])
      {
        ItemsAppended(old(dst), js, i);
        dst := dst + if i > 0 then "," else "";
        Append(h, items[i]);
        i := i + 1;
      }
      assert js[..|items|] == js;
    }
  }

  lemma ObjectOrder(obj: map<string, Value>, j: Json)
    requires j.Obj? && j.members.Keys == obj.Keys
    ensures Injective(Utf16) && SortedMembers(j.members) == SortedKeys(Utf16, obj.Keys)
    ensures forall k :: k in SortedKeys(Utf16, obj.Keys) <==> k in obj
  {
    EncodingsInjective();
    ObjectKeys(j.members);
  }

  /** CanonicalJSON. */
  method CanonicalJson(h: Heap, s: Slot) returns (text: string)
    requires HeapOk(h) && ScalarOk(Resolved(s))
    ensures text == Print(Tree(h, Resolved(s), {}))
  {
    var w := new Canonicalizer();
    match s {
      case Shaped(v) => w.Append(h, v);
      case Other(v) => w.Append(h, v);
    }
    text := w.dst;
  }
}
