/** Member order. `compareUTF16` sorts object members by UTF-16 code unit; `hardenMap` sorts raw keys
    by byte, which for UTF-8 is the order of code points. Both are one lexicographic comparison applied
    to an injective encoding of the key, so both sorts give a sequence that depends on the key set
    alone and not on the order in which Go happened to iterate the map. */
module Ordering {

  type Encoding = string -> seq<int>

  /** slices.Compare / strings.Compare: negative, zero or positive. */
  function Compare(a: seq<int>, b: seq<int>): (c: int)
    ensures c == 0 <==> a == b
  {
    if a == [] then (if b == [] then 0 else -1)
    else if b == [] then 1
    else if a[0] != b[0] then a[0] - b[0]
    else
      var c := Compare(a[1..], b[1..]);
      assert a == [a[0]] + a[1..] && b == [b[0]] + b[1..];
      c
  }

  lemma {:induction false} CompareAntisymmetric(a: seq<int>, b: seq<int>)
    ensures Compare(a, b) < 0 <==> Compare(b, a) > 0
  {
    if a != [] && b != [] && a[0] == b[0] {
      CompareAntisymmetric(a[1..], b[1..]);
    }
  }

  lemma {:induction false} CompareTransitive(a: seq<int>, b: seq<int>, c: seq<int>)
    requires Compare(a, b) < 0 && Compare(b, c) < 0
    ensures Compare(a, c) < 0
  {
    if a != [] && b != [] && c != [] && a[0] == b[0] == c[0] {
      CompareTransitive(a[1..], b[1..], c[1..]);
    }
  }

  predicate Before(enc: Encoding, a: string, b: string) {
    Compare(enc(a), enc(b)) < 0
  }

  ghost predicate Injective(enc: Encoding) {
    forall a, b :: enc(a) == enc(b) ==> a == b
  }

  predicate Ascending(enc: Encoding, s: seq<string>) {
    forall i, j :: 0 <= i < j < |s| ==> Before(enc, s[i], s[j])
  }

  predicate Distinct<T(==)>(s: seq<T>) {
    forall i, j :: 0 <= i < j < |s| ==> s[i] != s[j]
  }

  /** One possible outcome of ranging over a Go map with this key set. */
  predicate Enumerates(s: seq<string>, ks: set<string>) {
    Distinct(s) && (set k | k in s) == ks
  }

  /** Before is a strict total order on keys. */
  lemma BeforeTotal(enc: Encoding, a: string, b: string)
    requires Injective(enc)
    ensures !(Before(enc, a, b) && Before(enc, b, a))
    ensures a != b ==> Before(enc, a, b) || Before(enc, b, a)
  {
    CompareAntisymmetric(enc(a), enc(b));
  }

  /** slices.SortFunc, modelled as insertion sort. */
  function Insert(enc: Encoding, k: string, s: seq<string>): (r: seq<string>)
    ensures multiset(r) == multiset(s) + multiset{k}
  {
    if s == [] || !Before(enc, s[0], k) then [k] + s
    else
      assert s == [s[0]] + s[1..];
      [s[0]] + Insert(enc, k, s[1..])
  }

  function Sort(enc: Encoding, s: seq<string>): (r: seq<string>)
    ensures multiset(r) == multiset(s)
  {
    if s == [] then []
    else
      assert s == [s[0]] + s[1..];
      Insert(enc, s[0], Sort(enc, s[1..]))
  }

  lemma MultisetElements<T>(s: seq<T>, t: seq<T>)
    requires multiset(s) == multiset(t)
    ensures forall x :: x in s <==> x in t
    ensures |s| == |t|
  {
    forall x ensures x in s <==> x in t {
      assert x in s <==> x in multiset(s);
      assert x in t <==> x in multiset(t);
    }
    assert |multiset(s)| == |s| && |multiset(t)| == |t|;
  }

  lemma {:induction false} InsertAscending(enc: Encoding, k: string, s: seq<string>)
    requires Injective(enc) && Ascending(enc, s) && k !in s
    ensures Ascending(enc, Insert(enc, k, s))
  {
    hide Injective, Compare;
    if s == [] {
    } else if Before(enc, s[0], k) {
      var tail := Insert(enc, k, s[1..]);
      InsertAscending(enc, k, s[1..]);
      assert forall x :: x in tail ==> x == k || x in s[1..] by {
        MultisetElements(tail, s[1..] + [k]);
      }
      forall j | 0 <= j < |tail| ensures Before(enc, s[0], tail[j]) {
        assert tail[j] in tail;
      }
    } else {
      BeforeTotal(enc, k, s[0]);
      forall j | 0 <= j < |s| ensures Before(enc, k, s[j]) {
        if j > 0 { CompareTransitive(enc(k), enc(s[0]), enc(s[j])); }
      }
    }
  }

  lemma {:induction false} SortAscending(enc: Encoding, s: seq<string>)
    requires Injective(enc) && Distinct(s)
    ensures Ascending(enc, Sort(enc, s))
  {
    if s != [] {
      SortAscending(enc, s[1..]);
      MultisetElements(Sort(enc, s[1..]), s[1..]);
      InsertAscending(enc, s[0], Sort(enc, s[1..]));
    }
  }

  /** Two ascending sequences over the same elements are the same sequence. */
  lemma {:induction false} AscendingUnique(enc: Encoding, s: seq<string>, t: seq<string>)
    requires Ascending(enc, s) && Ascending(enc, t) && Injective(enc)
    requires forall x :: x in s <==> x in t
    ensures s == t
  {
    assert t != [] ==> t[0] in t;
    if s != [] {
      assert s[0] in t;
      var i :| 0 <= i < |t| && t[i] == s[0];
      assert t[0] in s;
      var j :| 0 <= j < |s| && s[j] == t[0];
      BeforeTotal(enc, s[0], t[0]);
      assert s[0] == t[0];
      forall x ensures x in s[1..] <==> x in t[1..] {
        BeforeTotal(enc, s[0], s[0]);
        assert x in s <==> x == s[0] || x in s[1..];
        assert x in t <==> x == t[0] || x in t[1..];
        assert s[0] !in s[1..] && t[0] !in t[1..];
      }
      AscendingUnique(enc, s[1..], t[1..]);
    }
  }

  /** The sorted key sequence does not depend on the map's iteration order. */
  lemma SortIgnoresIterationOrder(enc: Encoding, s: seq<string>, t: seq<string>, ks: set<string>)
    requires Injective(enc) && Enumerates(s, ks) && Enumerates(t, ks)
    ensures Sort(enc, s) == Sort(enc, t)
  {
    SortAscending(enc, s);
    SortAscending(enc, t);
    MultisetElements(Sort(enc, s), s);
    MultisetElements(Sort(enc, t), t);
    forall x ensures x in Sort(enc, s) <==> x in Sort(enc, t) {
      assert x in s <==> x in ks;
      assert x in t <==> x in ks;
    }
    AscendingUnique(enc, Sort(enc, s), Sort(enc, t));
  }

  ghost function AnyOrder(ks: set<string>): (s: seq<string>)
    ensures Enumerates(s, ks)
  {
    if ks == {} then []
    else
      var k :| k in ks;
      var r := AnyOrder(ks - {k});
      assert forall x :: x in r <==> x in ks - {k};
      [k] + r
  }

  /** The canonical order of a key set. */
  ghost function SortedKeys(enc: Encoding, ks: set<string>): (s: seq<string>)
  {
    Sort(enc, AnyOrder(ks))
  }

  lemma SortedKeysSpec(enc: Encoding, ks: set<string>)
    requires Injective(enc)
    ensures Ascending(enc, SortedKeys(enc, ks)) && Enumerates(SortedKeys(enc, ks), ks)
  {
    var s := AnyOrder(ks);
    SortAscending(enc, s);
    MultisetElements(Sort(enc, s), s);
    assert forall x :: x in s <==> x in ks;
    forall i, j | 0 <= i < j < |Sort(enc, s)| ensures Sort(enc, s)[i] != Sort(enc, s)[j] {
      BeforeTotal(enc, Sort(enc, s)[i], Sort(enc, s)[j]);
    }
  }

  /** Collecting the keys of a Go map and sorting them: the nondeterministic iteration order
      (the choice of k) does not reach the result. */
  method CollectAndSort(enc: Encoding, ks: set<string>) returns (keys: seq<string>)
    requires Injective(enc)
    ensures keys == SortedKeys(enc, ks)
  {
    var collected, left := [], ks;
    while left != {}
      invariant left <= ks && Enumerates(collected, ks - left)
      decreases left
    {
      var k :| k in left;
      assert forall x :: x in collected <==> x in ks - left;
      collected, left := collected + [k], left - {k};
    }
    SortIgnoresIterationOrder(enc, collected, AnyOrder(ks), ks);
    keys := Sort(enc, collected);
  }

  // ---- encodings ------------------------------------------------------------------------------

  /** utf16.Encode of one rune: itself, or a surrogate pair. */
  function RuneUnits(c: char): (u: seq<int>)
    ensures 1 <= |u| <= 2
  {
    var v := c as int;
    if v < 0x10000 then [v]
    else [0xD800 + (v - 0x10000) / 0x400, 0xDC00 + (v - 0x10000) % 0x400]
  }

  function Utf16(s: string): (u: seq<int>)
    ensures u == [] <==> s == []
  {
    if s == [] then [] else RuneUnits(s[0]) + Utf16(s[1..])
  }

  /** UTF-8 byte order is code point order. */
  function Points(s: string): (u: seq<int>)
    ensures |u| == |s|
  {
    seq(|s|, i requires 0 <= i < |s| => s[i] as int)
  }

  /** The first units of a text determine its first rune. */
  lemma RuneUnitsPrefix(c: char, d: char, x: seq<int>, y: seq<int>)
    requires RuneUnits(c) + x == RuneUnits(d) + y
    ensures c == d && x == y
  {
    var u := RuneUnits(c) + x;
    assert u[0] == RuneUnits(c)[0] && u[0] == RuneUnits(d)[0];
    assert |RuneUnits(c)| == 2 ==> u[1] == RuneUnits(c)[1];
    assert |RuneUnits(d)| == 2 ==> u[1] == RuneUnits(d)[1];
    assert c == d;
    assert x == u[|RuneUnits(c)|..] && y == u[|RuneUnits(d)|..];
  }

  lemma {:induction false} Utf16Injective(s: string, t: string)
    requires Utf16(s) == Utf16(t)
    ensures s == t
  {
    hide RuneUnits;
    if s != [] && t != [] {
      RuneUnitsPrefix(s[0], t[0], Utf16(s[1..]), Utf16(t[1..]));
      Utf16Injective(s[1..], t[1..]);
      assert s == [s[0]] + s[1..] && t == [t[0]] + t[1..];
    }
  }

  lemma EncodingsInjective()
    ensures Injective(Utf16) && Injective(Points)
  {
    forall a, b | Utf16(a) == Utf16(b) ensures a == b { Utf16Injective(a, b); }
    forall a, b | Points(a) == Points(b) ensures a == b {
      forall i | 0 <= i < |a| ensures a[i] == b[i] {
        assert Points(a)[i] == Points(b)[i];
      }
    }
  }
}
