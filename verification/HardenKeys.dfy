/** Which entries hardenMap keeps, and whose value each kept name carries. */
module HardenKeys {
  import opened Ordering
  import opened Harden

  /** The distinct cleaned names of a key sequence, in order of first occurrence. */
  function Names(keys: seq<string>): seq<string> {
    if keys == [] then []
    else
      var before := Names(keys[..|keys| - 1]);
      var name := CleanKey(keys[|keys| - 1]);
      if name in before then before else before + [name]
  }

  /** The names that fit under the attribute cap. */
  function Kept(keys: seq<string>, lim: Limits): seq<string> {
    var names := Names(keys);
    if lim.maxAttrs > 0 && |names| > lim.maxAttrs then names[..lim.maxAttrs] else names
  }

  /** The first key, in order, that cleans to name. */
  function First(keys: seq<string>, name: string): string {
    if keys == [] then name
    else if CleanKey(keys[0]) == name then keys[0]
    else First(keys[1..], name)
  }

  /** The key whose value a name carries: the untouched key if there is one, else the first sanitized key. */
  function Pick(keys: seq<string>, name: string): string {
    if name in keys then name else First(keys, name)
  }

  lemma {:induction false} NamesSpec(keys: seq<string>)
    ensures Distinct(Names(keys))
    ensures forall k :: k in keys ==> CleanKey(k) in Names(keys)
    ensures forall n :: n in Names(keys) ==> CleanKey(n) == n
  {
    hide CleanKey;
    if keys != [] {
      var p, k := keys[..|keys| - 1], keys[|keys| - 1];
      NamesSpec(p);
      CleanIsClean(k);
      assert keys == p + [k];
    }
  }

  lemma NamesSnoc(done: seq<string>, k: string)
    ensures Names(done + [k]) == if CleanKey(k) in Names(done) then Names(done) else Names(done) + [CleanKey(k)]
  {
    assert (done + [k])[..|done|] == done;
    hide CleanKey;
  }

  lemma {:induction false} FirstSnoc(done: seq<string>, k: string, name: string)
    ensures (exists x :: x in done && CleanKey(x) == name) ==> First(done + [k], name) == First(done, name)
    ensures !(exists x :: x in done && CleanKey(x) == name) && CleanKey(k) == name ==> First(done + [k], name) == k
  {
    hide CleanKey;
    if done == [] {
      assert done + [k] == [k];
    } else {
      FirstSnoc(done[1..], k, name);
      assert (done + [k])[1..] == done[1..] + [k];
      assert done == [done[0]] + done[1..];
      if CleanKey(done[0]) != name {
        assert forall x :: x in done && CleanKey(x) == name ==> x in done[1..];
        assert forall x :: x in done[1..] ==> x in done;
      }
    }
  }

  lemma {:induction false} NamesCome(keys: seq<string>, n: string)
    requires n in Names(keys)
    ensures exists x :: x in keys && CleanKey(x) == n
  {
    hide CleanKey;
    var p, k := keys[..|keys| - 1], keys[|keys| - 1];
    assert k in keys;
    if n != CleanKey(k) {
      NamesCome(p, n);
      var x :| x in p && CleanKey(x) == n;
      assert x in keys;
    }
  }

  ghost predicate ChosenKeys(acc: Keyed, done: seq<string>, lim: Limits) {
    && acc.out.Keys == (set n | n in Kept(done, lim)) && acc.from.Keys == acc.out.Keys
    && |acc.out| == |Kept(done, lim)| && acc.verbatim <= acc.out.Keys
  }

  ghost predicate ChosenFrom(acc: Keyed, done: seq<string>, n: string)
    requires n in acc.from
  {
    (n in acc.verbatim <==> n in done) && acc.from[n].0 == Pick(done, n)
  }

  /** hardenMap's accumulators after visiting `done`. */
  ghost predicate Chosen(acc: Keyed, done: seq<string>, lim: Limits) {
    ChosenKeys(acc, done, lim) && forall n :: n in acc.from ==> ChosenFrom(acc, done, n)
  }

  lemma PickSnoc(done: seq<string>, k: string, n: string)
    requires n in Names(done) && (n == k ==> n in done)
    ensures Pick(done + [k], n) == Pick(done, n) && (n in done + [k] <==> n in done)
  {
    NamesCome(done, n);
    FirstSnoc(done, k, n);
    hide CleanKey, First;
  }

  lemma SkipKept(acc: Keyed, done: seq<string>, k: string, lim: Limits)
    requires Chosen(acc, done, lim) && Skips(acc, k, lim)
    ensures Kept(done + [k], lim) == Kept(done, lim)
  {
    NamesSnoc(done, k);
    hide CleanKey, Names, ChosenFrom;
    assert CleanKey(k) in acc.out ==> CleanKey(k) in Kept(done, lim);
  }

  lemma SkipKeepsChoice(acc: Keyed, done: seq<string>, k: string, lim: Limits)
    requires Chosen(acc, done, lim) && Skips(acc, k, lim)
    ensures Chosen(acc, done + [k], lim)
  {
    SkipKept(acc, done, k, lim);
    forall n | n in acc.from ensures ChosenFrom(acc, done + [k], n) {
      assert ChosenFrom(acc, done, n);
      NamesSpec(done);
      hide CleanKey, Pick, Names;
      assert n in Kept(done, lim);
      assert n in Names(done) && CleanKey(n) == n;
      PickSnoc(done, k, n);
    }
    hide ChosenFrom, CleanKey, Kept;
  }

  /** Names other than the one stored are unaffected. */
  lemma StoreOther(acc: Keyed, done: seq<string>, k: string, lim: Limits, n: string)
    requires Chosen(acc, done, lim) && n in acc.from && n != CleanKey(k)
    ensures ChosenFrom(acc, done + [k], n)
  {
    assert ChosenFrom(acc, done, n);
    NamesSpec(done);
    hide CleanKey, Names, Pick;
    assert n in Kept(done, lim);
    assert n in Names(done) && CleanKey(n) == n;
    PickSnoc(done, k, n);
  }

  lemma StoreChosenFrom(acc: Keyed, done: seq<string>, k: string, o: Out, w: Walk, lim: Limits, n: string)
    requires Chosen(acc, done, lim) && !Skips(acc, k, lim) && n in Store(acc, k, o, w).from
    ensures ChosenFrom(Store(acc, k, o, w), done + [k], n)
  {
    if n != CleanKey(k) {
      StoreOther(acc, done, k, lim, n);
    } else {
      StorePick(acc, done, k, lim);
    }
    hide CleanKey, Pick, Kept;
  }

  lemma StoreKeepsChoice(acc: Keyed, done: seq<string>, k: string, o: Out, w: Walk, lim: Limits)
    requires Chosen(acc, done, lim) && !Skips(acc, k, lim)
    ensures Chosen(Store(acc, k, o, w), done + [k], lim)
  {
    StoreKept(acc, done, k, o, w, lim);
    forall n | n in Store(acc, k, o, w).from ensures ChosenFrom(Store(acc, k, o, w), done + [k], n) {
      StoreChosenFrom(acc, done, k, o, w, lim, n);
    }
    hide CleanKey, ChosenFrom, Kept, Skips;
  }

  lemma StoreKept(acc: Keyed, done: seq<string>, k: string, o: Out, w: Walk, lim: Limits)
    requires Chosen(acc, done, lim) && !Skips(acc, k, lim)
    ensures Store(acc, k, o, w).out.Keys == (set n | n in Kept(done + [k], lim))
    ensures |Store(acc, k, o, w).out| == |Kept(done + [k], lim)|
  {
    var name := CleanKey(k);
    NamesSnoc(done, k);
    hide CleanKey, Names, ChosenFrom;
    var kept, kept' := Kept(done, lim), Kept(done + [k], lim);
    var out' := Store(acc, k, o, w).out;
    assert forall n :: n in acc.out.Keys <==> n in kept;
    if name in acc.out {
      assert name in Names(done) && kept' == kept;
      assert out'.Keys == acc.out.Keys;
    } else {
      assert kept == Names(done) && kept' == kept + [name];
      assert out'.Keys == acc.out.Keys + {name};
    }
    assert |out'.Keys| == |out'|;
  }

  lemma StorePick(acc: Keyed, done: seq<string>, k: string, lim: Limits)
    requires Chosen(acc, done, lim) && !Skips(acc, k, lim)
    ensures Pick(done + [k], CleanKey(k)) == k
    ensures CleanKey(k) in done + [k] <==> CleanKey(k) == k
  {
    var name := CleanKey(k);
    NamesSpec(done);
    FirstSnoc(done, k, name);
    CleanIsClean(k);
    assert name in acc.from ==> ChosenFrom(acc, done, name);
    hide CleanKey, Names, First;
    if name != k {
      assert name !in acc.out;
      assert Kept(done, lim) == Names(done);
      assert name !in Names(done);
      assert name !in done;
    }
  }

  lemma {:induction false} KeysChoose(h: Heap, m: map<string, Value>, done: seq<string>, rest: seq<string>,
                                      acc: Keyed, w: Walk, depth: int, lim: Limits)
    requires (forall k :: k in rest ==> k in m) && Chosen(acc, done, lim)
    ensures Chosen(HardenKeys(h, m, rest, acc, w, depth, lim).acc, done + rest, lim)
    decreases |rest|
  {
    hide Chosen, HardenKeys, HardenValue, Skips, CleanKey, Grew;
    KeysUnroll(h, m, rest, acc, w, depth, lim);
    if rest == [] {
      assert done + rest == done;
    } else {
      var k := rest[0];
      assert k in rest;
      assert done + [k] + rest[1..] == done + rest;
      if Skips(acc, k, lim) {
        SkipKeepsChoice(acc, done, k, lim);
        KeysChoose(h, m, done + [k], rest[1..], acc, w, depth, lim);
      } else {
        var a := HardenValue(h, m[k], w, depth + 1, lim);
        StoreKeepsChoice(acc, done, k, a.o, w, lim);
        KeysChoose(h, m, done + [k], rest[1..], Store(acc, k, a.o, w), a.w, depth, lim);
      }
    }
  }

  // ---- the walk each kept value was hardened under ------------------------------------------------

  const Nothing := Keyed(map[], {}, map[])

  /** hardenMap's accumulators and walk before it visits keys[i]. */
  ghost function AtKey(
    h: Heap, m: map<string, Value>, keys: seq<string>, i: nat, w: Walk, depth: int, lim: Limits): MapRes
    requires i <= |keys| && forall k :: k in keys ==> k in m
  {
    PrefixIn(keys, i, m.Keys);
    HardenKeys(h, m, keys[..i], Nothing, w, depth, lim)
  }

  lemma PrefixIn(keys: seq<string>, i: nat, ks: set<string>)
    requires i <= |keys| && forall k :: k in keys ==> k in ks
    ensures forall k :: k in keys[..i] ==> k in ks
  {}

  lemma {:induction false} KeysSnoc(
    h: Heap, m: map<string, Value>, keys: seq<string>, k: string, acc: Keyed, w: Walk, depth: int, lim: Limits)
    requires k in m && forall x :: x in keys ==> x in m
    ensures var r := HardenKeys(h, m, keys, acc, w, depth, lim);
      var a := HardenValue(h, m[k], r.w, depth + 1, lim);
      HardenKeys(h, m, keys + [k], acc, w, depth, lim) ==
        if Skips(r.acc, k, lim) then r else MapRes(Store(r.acc, k, a.o, r.w), a.w)
    decreases |keys|
  {
    hide HardenKeys, HardenValue, Skips, Store, Grew, Left;
    var all := keys + [k];
    KeysUnroll(h, m, keys, acc, w, depth, lim);
    KeysUnroll(h, m, all, acc, w, depth, lim);
    if keys == [] {
      assert all[1..] == [];
      var a := HardenValue(h, m[k], w, depth + 1, lim);
      KeysUnroll(h, m, [], acc, w, depth, lim);
      KeysUnroll(h, m, [], Store(acc, k, a.o, w), a.w, depth, lim);
    } else {
      assert all[0] == keys[0] && all[1..] == keys[1..] + [k];
      if Skips(acc, keys[0], lim) {
        KeysSnoc(h, m, keys[1..], k, acc, w, depth, lim);
      } else {
        var a := HardenValue(h, m[keys[0]], w, depth + 1, lim);
        KeysSnoc(h, m, keys[1..], k, Store(acc, keys[0], a.o, w), a.w, depth, lim);
      }
    }
  }

  /** One turn of the loop, seen from the turns before it. */
  lemma AtNextKey(h: Heap, m: map<string, Value>, keys: seq<string>, i: nat, w: Walk, depth: int, lim: Limits)
    requires i < |keys| && forall k :: k in keys ==> k in m
    ensures var r := AtKey(h, m, keys, i, w, depth, lim);
      var a := HardenValue(h, m[keys[i]], r.w, depth + 1, lim);
      AtKey(h, m, keys, i + 1, w, depth, lim) ==
        if Skips(r.acc, keys[i], lim) then r else MapRes(Store(r.acc, keys[i], a.o, r.w), a.w)
  {
    hide HardenKeys, HardenValue, Skips, Store;
    assert keys[i] in keys && keys[..i + 1] == keys[..i] + [keys[i]];
    PrefixIn(keys, i, m.Keys);
    KeysSnoc(h, m, keys[..i], keys[i], Nothing, w, depth, lim);
  }

  /** o is keys[j]'s value, hardened under the walk exactly as it stood when the loop came to that key. */
  ghost predicate HardenedAt(
    h: Heap, m: map<string, Value>, keys: seq<string>, j: nat, w: Walk, depth: int, lim: Limits, o: Out)
    requires forall k :: k in keys ==> k in m
  {
    j < |keys| && o == HardenValue(h, m[keys[j]], AtKey(h, m, keys, j, w, depth, lim).w, depth + 1, lim).o
  }

  /** The kept name n came from keys[j]. */
  ghost predicate From(
    h: Heap, m: map<string, Value>, keys: seq<string>, j: nat, w: Walk, depth: int, lim: Limits, acc: Keyed, n: string)
    requires forall k :: k in keys ==> k in m
  {
    && j < |keys| && n in acc.from && n in acc.out && acc.from[n].0 == keys[j]
    && HardenedAt(h, m, keys, j, w, depth, lim, acc.out[n])
  }

  lemma {:induction false} KeysSourced(
    h: Heap, m: map<string, Value>, keys: seq<string>, i: nat, w: Walk, depth: int, lim: Limits)
    requires i <= |keys| && forall k :: k in keys ==> k in m
    ensures var acc := AtKey(h, m, keys, i, w, depth, lim).acc;
      forall n :: n in acc.from ==> exists j :: 0 <= j < i && From(h, m, keys, j, w, depth, lim, acc, n)
    decreases i
  {
    hide HardenValue, Skips, HardenKeys;
    var acc := AtKey(h, m, keys, i, w, depth, lim).acc;
    if i == 0 {
      assert keys[..0] == [];
      KeysUnroll(h, m, [], Nothing, w, depth, lim);
    } else {
      KeysSourced(h, m, keys, i - 1, w, depth, lim);
      AtNextKey(h, m, keys, i - 1, w, depth, lim);
      var was := AtKey(h, m, keys, i - 1, w, depth, lim).acc;
      hide AtKey, CleanKey;
      forall n | n in acc.from ensures exists j :: 0 <= j < i && From(h, m, keys, j, w, depth, lim, acc, n) {
        if !Skips(was, keys[i - 1], lim) && n == CleanKey(keys[i - 1]) {
          assert From(h, m, keys, i - 1, w, depth, lim, acc, n);
        } else {
          var j :| 0 <= j < i - 1 && From(h, m, keys, j, w, depth, lim, was, n);
          assert From(h, m, keys, j, w, depth, lim, acc, n);
        }
      }
    }
  }

  /** hardenMap's result is what the loop holds after the last key. */
  lemma SortedIsAtKey(h: Heap, m: map<string, Value>, w: Walk, depth: int, lim: Limits)
    ensures var keys := SortedKeys(Points, m.Keys);
      (forall k :: k in keys ==> k in m) && Distinct(keys) &&
      HardenSorted(h, m, w, depth, lim) == AtKey(h, m, keys, |keys|, w, depth, lim) &&
      Chosen(HardenSorted(h, m, w, depth, lim).acc, keys, lim)
  {
    hide HardenKeys, SortedKeys, Chosen;
    SortedPoints(m.Keys);
    var keys := SortedKeys(Points, m.Keys);
    assert Chosen(Nothing, [], lim) by { ChosenNothing(lim); }
    KeysChoose(h, m, [], keys, Nothing, w, depth, lim);
    assert [] + keys == keys && keys[..|keys|] == keys;
  }

  lemma ChosenNothing(lim: Limits)
    ensures Chosen(Nothing, [], lim)
  {
    NoNames(lim);
  }

  /** For every map, hardenMap keeps the first distinct cleaned names in sorted raw-key order up to the cap.
      Each carries the value of the untouched key if one exists, else of the first sanitized key, hardened
      under the walk exactly as it stood when the loop came to that key. */
  lemma MapKeepsFirstNames(h: Heap, m: map<string, Value>, w: Walk, depth: int, lim: Limits)
    ensures var keys := SortedKeys(Points, m.Keys);
      (forall k :: k in keys ==> k in m) &&
      HardenSorted(h, m, w, depth, lim).acc.out.Keys == (set n | n in Kept(keys, lim))
    ensures var keys := SortedKeys(Points, m.Keys); var out := HardenSorted(h, m, w, depth, lim).acc.out;
      forall n :: n in out ==>
        exists j :: 0 <= j < |keys| && keys[j] == Pick(keys, n) && HardenedAt(h, m, keys, j, w, depth, lim, out[n])
  {
    hide HardenSorted, SortedKeys, Pick, Names, Kept, HardenedAt, AtKey;
    SortedIsAtKey(h, m, w, depth, lim);
    var keys := SortedKeys(Points, m.Keys);
    var acc := HardenSorted(h, m, w, depth, lim).acc;
    KeysSourced(h, m, keys, |keys|, w, depth, lim);
    forall n | n in acc.out
      ensures exists j ::
        0 <= j < |keys| && keys[j] == Pick(keys, n) && HardenedAt(h, m, keys, j, w, depth, lim, acc.out[n])
    {
      assert n in acc.from && ChosenFrom(acc, keys, n);
      var j :| 0 <= j < |keys| && From(h, m, keys, j, w, depth, lim, acc, n);
    }
  }

  lemma NoNames(lim: Limits)
    ensures Kept([], lim) == []
  {}
}
