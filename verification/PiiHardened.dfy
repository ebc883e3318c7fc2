/** The whole attribute pass of applyPII (go/logger.go:347-372): keys are cleaned, attributes split into
    rounds, each round's map hardened and then judged by the engine, and the record rebuilt. Hardening is not
    an entry-wise step: it caps the width of a round and expands a shared reference once. */
module PiiHardened {
  import opened Common
  import opened Ordering
  import opened Harden
  import opened HardenKeys
  import opened HardenSize
  import opened HardenLocal
  import opened PiiRounds
  import HardenShared
  import HardenUnfold
  import HardenWalk

  /** What hardening makes of v when nothing was crossed before. */
  ghost function Alone(h: Heap, v: Value, depth: int, lim: Limits): Out {
    HardenValue(h, v, Walk({}, []), depth, lim).o
  }

  // ---- a map whose entries share nothing ----------------------------------------------------------

  /** reach[k] holds every reference the entry at k can reach. */
  ghost predicate Reaches(h: Heap, m: map<string, Value>, reach: map<string, set<Id>>) {
    m.Keys <= reach.Keys && forall k :: k in m ==> Closed(h, reach[k]) && RefsIn(m[k], reach[k])
  }

  ghost predicate Disjoint(m: map<string, Value>, reach: map<string, set<Id>>)
    requires m.Keys <= reach.Keys
  {
    forall j, k :: j in m && k in m && j != k ==> reach[j] !! reach[k]
  }

  predicate Fits(n: nat, lim: Limits) { lim.maxAttrs <= 0 || n <= lim.maxAttrs }

  ghost predicate Prepared(h: Heap, m: map<string, Value>, reach: map<string, set<Id>>, w: Walk, lim: Limits) {
    && Reaches(h, m, reach) && Disjoint(m, reach) && Fits(|m|, lim)
    && forall k :: k in m ==> CleanKey(k) == k && reach[k] !! w.seen
  }

  ghost function AloneTable(h: Heap, m: map<string, Value>, ks: set<string>, depth: int, lim: Limits): map<string, Out>
    requires ks <= m.Keys
  {
    map k | k in ks :: Alone(h, m[k], depth, lim)
  }

  function Upto(keys: seq<string>, i: nat): (ks: set<string>)
    requires i <= |keys|
  {
    set k | k in keys[..i]
  }

  lemma UptoNext(keys: seq<string>, i: nat)
    requires i < |keys| && Distinct(keys)
    ensures Upto(keys, i + 1) == Upto(keys, i) + {keys[i]} && keys[i] !in Upto(keys, i) && Upto(keys, 0) == {}
  {
    assert keys[..i + 1] == keys[..i] + [keys[i]];
  }

  /** After i turns: the visited entries hardened as if alone, and nothing crossed that a later one reaches. */
  ghost predicate AloneSoFar(
    h: Heap, m: map<string, Value>, ks: set<string>, r: MapRes, depth: int, lim: Limits, reach: map<string, set<Id>>)
    requires m.Keys <= reach.Keys
  {
    && ks <= m.Keys && r.acc.out == AloneTable(h, m, ks, depth + 1, lim)
    && forall k :: k in m && k !in ks ==> reach[k] !! r.w.seen
  }

  lemma {:induction false} KeysAlone(
    h: Heap, m: map<string, Value>, keys: seq<string>, i: nat, w: Walk, depth: int, lim: Limits,
    reach: map<string, set<Id>>)
    requires i <= |keys| && Distinct(keys) && (forall k :: k in keys ==> k in m) && Prepared(h, m, reach, w, lim)
    ensures AloneSoFar(h, m, Upto(keys, i), AtKey(h, m, keys, i, w, depth, lim), depth, lim, reach)
    decreases i
  {
    hide HardenValue, Harden.HardenKeys, Skips, Store, Grew, CleanKey, RefsIn, Closed, Alone, AloneSoFar, Prepared;
    if i == 0 {
      assert keys[..0] == [];
      KeysUnroll(h, m, [], Nothing, w, depth, lim);
      NoneYet(h, m, Upto(keys, 0), w, depth, lim, reach);
    } else {
      KeysAlone(h, m, keys, i - 1, w, depth, lim, reach);
      AtNextKey(h, m, keys, i - 1, w, depth, lim);
      UptoNext(keys, i - 1);
      hide AtKey, Upto;
      assert keys[i - 1] in keys;
      AloneTurn(h, m, Upto(keys, i - 1), keys[i - 1], AtKey(h, m, keys, i - 1, w, depth, lim), w, depth, lim, reach);
    }
  }

  lemma NoneYet(
    h: Heap, m: map<string, Value>, ks: set<string>, w: Walk, depth: int, lim: Limits, reach: map<string, set<Id>>)
    requires Prepared(h, m, reach, w, lim) && ks == {}
    ensures AloneSoFar(h, m, ks, MapRes(Nothing, w), depth, lim, reach)
  {
    hide RefsIn, Closed, CleanKey;
  }

  lemma AloneTurn(
    h: Heap, m: map<string, Value>, ks: set<string>, k: string, r: MapRes, w: Walk, depth: int, lim: Limits,
    reach: map<string, set<Id>>)
    requires Prepared(h, m, reach, w, lim) && AloneSoFar(h, m, ks, r, depth, lim, reach) && k in m && k !in ks
    ensures var a := HardenValue(h, m[k], r.w, depth + 1, lim);
      !Skips(r.acc, k, lim) && AloneSoFar(h, m, ks + {k}, MapRes(Store(r.acc, k, a.o, r.w), a.w), depth, lim, reach)
  {
    hide HardenValue, Skips, Store, Grew, CleanKey, RefsIn, Closed, AloneTable;
    RoomLeft(m, ks, k, lim);
    TableNext(h, m, ks, k, depth + 1, lim);
    assert Reaches(h, m, reach) && CleanKey(k) == k;
    FreshTurn(h, m, k, r, depth, lim, reach);
    var a := HardenValue(h, m[k], r.w, depth + 1, lim);
    hide Alone, Reaches;
    forall x | x in m && x !in ks + {k} ensures reach[x] !! a.w.seen {
      assert reach[x] !! reach[k] && reach[x] !! r.w.seen;
    }
  }

  lemma RoomLeft(m: map<string, Value>, ks: set<string>, k: string, lim: Limits)
    requires ks <= m.Keys && k in m && k !in ks && Fits(|m|, lim)
    ensures Fits(|ks| + 1, lim)
  {
    assert |ks + {k}| == |ks| + 1;
    SmallerOrEqual(ks + {k}, m.Keys);
    assert |m.Keys| == |m|;
  }

  lemma TableNext(h: Heap, m: map<string, Value>, ks: set<string>, k: string, depth: int, lim: Limits)
    requires ks <= m.Keys && k in m && k !in ks
    ensures AloneTable(h, m, ks, depth, lim).Keys == ks && |AloneTable(h, m, ks, depth, lim)| == |ks|
    ensures AloneTable(h, m, ks + {k}, depth, lim) == AloneTable(h, m, ks, depth, lim)[k := Alone(h, m[k], depth, lim)]
  {
    hide Alone;
    var t := AloneTable(h, m, ks, depth, lim);
    assert t.Keys == ks && |t.Keys| == |t|;
  }

  /** One turn at a key whose entry shares nothing with what was crossed. */
  lemma FreshTurn(
    h: Heap, m: map<string, Value>, k: string, r: MapRes, depth: int, lim: Limits, reach: map<string, set<Id>>)
    requires k in m && k !in r.acc.out && Fits(|r.acc.out| + 1, lim) && CleanKey(k) == k
    requires Reaches(h, m, reach) && reach[k] !! r.w.seen
    ensures var a := HardenValue(h, m[k], r.w, depth + 1, lim);
      && !Skips(r.acc, k, lim) && Store(r.acc, k, a.o, r.w).out == r.acc.out[k := a.o]
      && a.o == Alone(h, m[k], depth + 1, lim) && a.w.seen <= r.w.seen + reach[k]
  {
    hide HardenValue, CleanKey, RefsIn, Closed, Size, Inline, Mass;
    ValueLocal(h, h, m[k], r.w, Walk({}, []), depth + 1, lim, reach[k]);
    ValuePaid(h, m[k], r.w, depth + 1, lim, reach[k]);
  }

  /** hardenMap on a map that fits the cap, with clean keys and entries that share nothing with one another or
      with what was crossed before, hardens each entry as if it were alone. */
  lemma SortedAlone(h: Heap, m: map<string, Value>, w: Walk, depth: int, lim: Limits, reach: map<string, set<Id>>)
    requires Prepared(h, m, reach, w, lim)
    ensures HardenSorted(h, m, w, depth, lim).acc.out == AloneTable(h, m, m.Keys, depth + 1, lim)
  {
    hide HardenSorted, SortedKeys, Prepared, AtKey, Alone;
    SortedIsAtKey(h, m, w, depth, lim);
    var keys := SortedKeys(Points, m.Keys);
    SortedPoints(m.Keys);
    KeysAlone(h, m, keys, |keys|, w, depth, lim, reach);
    assert keys[..|keys|] == keys;
    assert Upto(keys, |keys|) == m.Keys;
  }

  // ---- one round ----------------------------------------------------------------------------------

  /** The round's map is a new object of its own. */
  function WithPayload(h: Heap, own: Id, payload: map<string, Value>): Heap { h[own := MapNode(true, payload, None)] }

  lemma ApartFromPayload(h: Heap, own: Id, payload: map<string, Value>, R: set<Id>)
    requires Closed(h, R) && own !in R
    ensures Closed(WithPayload(h, own, payload), R) && SameNodes(WithPayload(h, own, payload), h, R)
  {
    hide RefsIn;
  }

  /** Harden on a round's map, when its entries share nothing. */
  lemma PayloadAlone(h: Heap, own: Id, payload: map<string, Value>, lim: Limits, reach: map<string, set<Id>>)
    requires Prepared(h, payload, reach, Walk({}, []), lim) && lim.maxDepth > 0
    requires forall k :: k in payload ==> own !in reach[k]
    ensures Hardened(WithPayload(h, own, payload), Map(own), lim).o ==
      OMap(AloneTable(h, payload, payload.Keys, 1, lim))
  {
    hide HardenValue, HardenSorted, Prepared, Alone, AloneTable;
    var g, w := WithPayload(h, own, payload), Walk({}, []);
    assert own in g && g[own] == MapNode(true, payload, None);
    hide WithPayload;
    if payload == map[] {
      EmptyPayload(g, own, lim);
      EmptyTable(h, payload, lim);
    } else {
      HardenShared.MapEntered(g, own, w, 0, lim);
      PreparedWithPayload(h, own, payload, lim, reach);
      SortedAlone(g, payload, Open(Mark(w, Some(own)), own), 0, lim, reach);
    }
  }

  lemma EmptyTable(h: Heap, m: map<string, Value>, lim: Limits)
    requires m == map[]
    ensures AloneTable(h, m, m.Keys, 1, lim) == map[]
  {}

  lemma PreparedWithPayload(h: Heap, own: Id, payload: map<string, Value>, lim: Limits, reach: map<string, set<Id>>)
    requires Prepared(h, payload, reach, Walk({}, []), lim) && forall k :: k in payload ==> own !in reach[k]
    ensures var g := WithPayload(h, own, payload);
      Prepared(g, payload, reach, Open(Mark(Walk({}, []), Some(own)), own), lim) &&
      AloneTable(g, payload, payload.Keys, 1, lim) == AloneTable(h, payload, payload.Keys, 1, lim)
  {
    hide HardenValue, CleanKey, RefsIn, Closed, Alone, WithPayload, SameNodes;
    var g := WithPayload(h, own, payload);
    forall k | k in payload
      ensures Closed(g, reach[k]) && Alone(g, payload[k], 1, lim) == Alone(h, payload[k], 1, lim)
    {
      ApartFromPayload(h, own, payload, reach[k]);
      SameAlone(g, h, payload[k], 1, lim, reach[k]);
    }
  }

  lemma SameAlone(g: Heap, h: Heap, v: Value, depth: int, lim: Limits, R: set<Id>)
    requires Closed(g, R) && SameNodes(g, h, R) && RefsIn(v, R)
    ensures Alone(g, v, depth, lim) == Alone(h, v, depth, lim)
  {
    hide HardenValue, RefsIn, Closed;
    ValueLocal(g, h, v, Walk({}, []), Walk({}, []), depth, lim, R);
  }

  lemma EmptyPayload(g: Heap, own: Id, lim: Limits)
    requires own in g && g[own] == MapNode(true, map[], None) && lim.maxDepth > 0
    ensures Hardened(g, Map(own), lim).o == OMap(map[])
  {
    hide Grew;
    var v, w := Map(own), Walk({}, []);
    assert Follow(g, v, w, lim) == Reached(v, w);
    assert Identity(g, v).None? && DescribedBy(g, v).None?;
    assert HardenReached(g, v, w, 0, lim) == HardenPlain(g, v, w, 0, lim);
  }

  // ---- the record ---------------------------------------------------------------------------------

  /** _cleanedRecordAttrs. */
  function Cleaned(record: seq<Attr<Value>>): (attrs: seq<Attr<Value>>)
    ensures |attrs| == |record|
    ensures forall i :: 0 <= i < |record| ==> attrs[i] == Attr(CleanKey(record[i].key), record[i].value)
  {
    seq(|record|, i requires 0 <= i < |record| => Attr(CleanKey(record[i].key), record[i].value))
  }

  /** The distinct keys fit the cap, and no two attributes of one round reach a common reference; attributes
      with the same key are in different rounds and may share. */
  ghost predicate Separate(
    h: Heap, own: Id, attrs: seq<Attr<Value>>, rounds: seq<nat>, reach: seq<set<Id>>, lim: Limits) {
    && |reach| == |attrs| == |rounds| && Fits(|set i | 0 <= i < |attrs| :: attrs[i].key|, lim)
    && (forall i :: 0 <= i < |attrs| ==> Closed(h, reach[i]) && RefsIn(attrs[i].value, reach[i]) && own !in reach[i])
    && (forall i, j :: 0 <= i < j < |attrs| && rounds[i] == rounds[j] ==> reach[i] !! reach[j])
  }

  /** The reach of each entry of a round's map, by key. */
  ghost function ReachOf(attrs: seq<Attr<Value>>, rounds: seq<nat>, round: nat, reach: seq<set<Id>>, k: Key): (i: nat)
    requires |reach| == |attrs| == |rounds| && Present(attrs, rounds, round, |attrs|, k)
    ensures i < |attrs| && rounds[i] == round && attrs[i].key == k
  {
    var i :| 0 <= i < |attrs| && rounds[i] == round && attrs[i].key == k;
    i
  }

  lemma RoundAlone(
    h: Heap, own: Id, attrs: seq<Attr<Value>>, rounds: seq<nat>, round: nat, payload: map<Key, Value>,
    reach: seq<set<Id>>, lim: Limits)
    requires Numbered(attrs, rounds) && Separate(h, own, attrs, rounds, reach, lim) && lim.maxDepth > 0
    requires forall i :: 0 <= i < |attrs| ==> CleanKey(attrs[i].key) == attrs[i].key
    requires Holds(payload, attrs, rounds, round, |attrs|, (v: Value) => v)
    ensures Hardened(WithPayload(h, own, payload), Map(own), lim).o ==
      OMap(AloneTable(h, payload, payload.Keys, 1, lim))
  {
    RoundPrepared(h, own, attrs, rounds, round, payload, reach, lim);
    hide *;
    PayloadAlone(h, own, payload, lim, ReachTable(attrs, rounds, round, payload, reach));
  }

  /** The entry at k comes from attribute i, with that attribute's reach. */
  predicate EntryOf(
    attrs: seq<Attr<Value>>, rounds: seq<nat>, round: nat, payload: map<Key, Value>, reach: seq<set<Id>>, k: Key,
    r: set<Id>, i: nat)
    requires |reach| == |attrs| == |rounds|
  {
    i < |attrs| && rounds[i] == round && attrs[i].key == k && k in payload && attrs[i].value == payload[k] &&
      r == reach[i]
  }

  ghost function ReachTable(
    attrs: seq<Attr<Value>>, rounds: seq<nat>, round: nat, payload: map<Key, Value>,
    reach: seq<set<Id>>): (t: map<Key, set<Id>>)
    requires |reach| == |attrs| == |rounds| && Holds(payload, attrs, rounds, round, |attrs|, (v: Value) => v)
    ensures t.Keys == payload.Keys
    ensures forall k :: k in payload ==> exists i :: EntryOf(attrs, rounds, round, payload, reach, k, t[k], i)
  {
    var t := map k | k in payload :: reach[ReachOf(attrs, rounds, round, reach, k)];
    assert forall k :: k in payload ==>
      EntryOf(attrs, rounds, round, payload, reach, k, t[k], ReachOf(attrs, rounds, round, reach, k));
    t
  }

  lemma RoundPrepared(
    h: Heap, own: Id, attrs: seq<Attr<Value>>, rounds: seq<nat>, round: nat, payload: map<Key, Value>,
    reach: seq<set<Id>>, lim: Limits)
    requires |reach| == |attrs| == |rounds| && Separate(h, own, attrs, rounds, reach, lim)
    requires forall i :: 0 <= i < |attrs| ==> CleanKey(attrs[i].key) == attrs[i].key
    requires Holds(payload, attrs, rounds, round, |attrs|, (v: Value) => v)
    ensures var within := ReachTable(attrs, rounds, round, payload, reach);
      Prepared(h, payload, within, Walk({}, []), lim) && forall k :: k in payload ==> own !in within[k]
  {
    hide RefsIn, Closed, CleanKey, ReachTable, Holds, Separate, EntryOf;
    var within := ReachTable(attrs, rounds, round, payload, reach);
    assert Fits(|payload|, lim) by { SeparateFits(h, own, attrs, rounds, round, payload, reach, lim); }
    forall j, k | j in payload && k in payload && j != k ensures within[j] !! within[k] {
      var a :| EntryOf(attrs, rounds, round, payload, reach, j, within[j], a);
      var b :| EntryOf(attrs, rounds, round, payload, reach, k, within[k], b);
      EntriesApart(h, own, attrs, rounds, round, payload, reach, lim, j, k, within[j], within[k], a, b);
    }
    forall k | k in payload
      ensures Closed(h, within[k]) && RefsIn(payload[k], within[k]) && own !in within[k] && CleanKey(k) == k
    {
      var i :| EntryOf(attrs, rounds, round, payload, reach, k, within[k], i);
      EntryReaches(h, own, attrs, rounds, round, payload, reach, lim, k, within[k], i);
    }
  }

  lemma EntriesApart(
    h: Heap, own: Id, attrs: seq<Attr<Value>>, rounds: seq<nat>, round: nat, payload: map<Key, Value>,
    reach: seq<set<Id>>, lim: Limits,
    j: Key, k: Key, r: set<Id>, s: set<Id>, a: nat, b: nat)
    requires Separate(h, own, attrs, rounds, reach, lim) && j != k
    requires EntryOf(attrs, rounds, round, payload, reach, j, r, a) &&
      EntryOf(attrs, rounds, round, payload, reach, k, s, b)
    ensures r !! s
  {
    hide RefsIn, Closed;
    assert a < b || b < a;
  }

  lemma EntryReaches(
    h: Heap, own: Id, attrs: seq<Attr<Value>>, rounds: seq<nat>, round: nat, payload: map<Key, Value>,
    reach: seq<set<Id>>, lim: Limits,
    k: Key, r: set<Id>, i: nat)
    requires Separate(h, own, attrs, rounds, reach, lim) && EntryOf(attrs, rounds, round, payload, reach, k, r, i)
    requires forall x :: 0 <= x < |attrs| ==> CleanKey(attrs[x].key) == attrs[x].key
    ensures Closed(h, r) && RefsIn(payload[k], r) && own !in r && CleanKey(k) == k
  {
    hide RefsIn, Closed, CleanKey;
  }

  lemma SeparateFits(
    h: Heap, own: Id, attrs: seq<Attr<Value>>, rounds: seq<nat>, round: nat, payload: map<Key, Value>,
    reach: seq<set<Id>>, lim: Limits)
    requires Separate(h, own, attrs, rounds, reach, lim) &&
      Holds(payload, attrs, rounds, round, |attrs|, (v: Value) => v)
    ensures Fits(|payload|, lim)
  {
    hide RefsIn, Closed;
    RoundFits(attrs, rounds, round, payload, reach, lim);
  }

  lemma RoundFits(
    attrs: seq<Attr<Value>>, rounds: seq<nat>, round: nat, payload: map<Key, Value>, reach: seq<set<Id>>, lim: Limits)
    requires |reach| == |attrs| == |rounds| && Holds(payload, attrs, rounds, round, |attrs|, (v: Value) => v)
    requires Fits(|set i | 0 <= i < |attrs| :: attrs[i].key|, lim)
    ensures Fits(|payload|, lim)
  {
    var names := set i | 0 <= i < |attrs| :: attrs[i].key;
    forall k | k in payload ensures k in names {
      assert Present(attrs, rounds, round, |attrs|, k);
    }
    SmallerOrEqual(payload.Keys, names);
    assert |payload.Keys| == |payload|;
  }

  lemma SmallerOrEqual<T>(a: set<T>, b: set<T>)
    requires a <= b
    ensures |a| <= |b|
  {
    if a != b { Smaller(a, b); }
  }

  // ---- any record ---------------------------------------------------------------------------------

  /** What hardening leaves of a round's map. */
  ghost function HardenedRound(h: Heap, own: Id, payload: map<Key, Value>, lim: Limits): map<Key, Out> {
    var o := Hardened(WithPayload(h, own, payload), Map(own), lim).o;
    if o.OMap? then o.m else map[]
  }

  /** The first keys of the map in byte order, as many as the cap allows. */
  ghost function FirstKeys(keys: set<Key>, lim: Limits): seq<Key> {
    var all := SortedKeys(Points, keys);
    if lim.maxAttrs > 0 && |all| > lim.maxAttrs then all[..lim.maxAttrs] else all
  }

  lemma NamesOfNone()
    ensures Names([]) == []
  {}

  lemma {:induction false} CleanNamesAreKeys(keys: seq<Key>)
    requires Distinct(keys) && forall k :: k in keys ==> CleanKey(k) == k
    ensures Names(keys) == keys
    decreases |keys|
  {
    hide CleanKey, Names;
    if keys == [] {
      NamesOfNone();
    } else {
      var p, k := keys[..|keys| - 1], keys[|keys| - 1];
      assert k in keys && forall x :: x in p ==> x in keys;
      CleanNamesAreKeys(p);
      assert k !in p && keys == p + [k];
      NamesSnoc(p, k);
    }
  }

  /** The o at keys[j] is that key's value hardened under the walk as it stood when the loop came to it. */
  ghost predicate InTurn(h: Heap, own: Id, payload: map<Key, Value>, lim: Limits, k: Key, o: Out) {
    var g, w := WithPayload(h, own, payload), Open(Mark(Walk({}, []), Some(own)), own);
    var keys := SortedKeys(Points, payload.Keys);
    (forall x :: x in keys ==> x in payload) &&
    exists j :: 0 <= j < |keys| && keys[j] == k && HardenedAt(g, payload, keys, j, w, 0, lim, o)
  }

  /** Hardening a round keeps exactly the first keys in byte order up to the cap, each with its own value. */
  lemma RoundKeeps(h: Heap, own: Id, payload: map<Key, Value>, lim: Limits)
    requires lim.maxDepth > 0 && forall k :: k in payload ==> CleanKey(k) == k
    ensures var m := HardenedRound(h, own, payload, lim);
      m.Keys == (set k | k in FirstKeys(payload.Keys, lim)) &&
        forall k :: k in m ==> InTurn(h, own, payload, lim, k, m[k])
  {
    if payload == map[] {
      EmptyRound(h, own, payload, lim);
    } else {
      hide HardenedRound, HardenSorted, SortedKeys, CleanKey, HardenedAt, Names, WithPayload, FirstKeys, Kept, InTurn;
      var keys := SortedKeys(Points, payload.Keys);
      SortedPoints(payload.Keys);
      RoundIsSorted(h, own, payload, lim);
      MapKeepsFirstNames(WithPayload(h, own, payload), payload, Open(Mark(Walk({}, []), Some(own)), own), 0, lim);
      FirstAreKept(payload.Keys, lim);
      forall k | k in HardenedRound(h, own, payload, lim)
        ensures InTurn(h, own, payload, lim, k, HardenedRound(h, own, payload, lim)[k])
      {
        KeptIn(payload.Keys, lim, k);
        KeptInTurn(h, own, payload, lim, k);
      }
    }
  }

  lemma EmptyRound(h: Heap, own: Id, payload: map<Key, Value>, lim: Limits)
    requires lim.maxDepth > 0 && payload == map[]
    ensures HardenedRound(h, own, payload, lim) == map[] && FirstKeys(payload.Keys, lim) == []
  {
    EmptyPayload(WithPayload(h, own, payload), own, lim);
    hide Hardened;
    SortedPoints(payload.Keys);
    HardenUnfold.NoneIn(SortedKeys(Points, payload.Keys));
  }

  lemma RoundIsSorted(h: Heap, own: Id, payload: map<Key, Value>, lim: Limits)
    requires lim.maxDepth > 0 && payload != map[]
    ensures HardenedRound(h, own, payload, lim) ==
      HardenSorted(WithPayload(h, own, payload), payload, Open(Mark(Walk({}, []), Some(own)), own), 0, lim).acc.out
  {
    hide HardenValue, HardenSorted;
    HardenShared.MapEntered(WithPayload(h, own, payload), own, Walk({}, []), 0, lim);
  }

  lemma FirstAreKept(keys: set<Key>, lim: Limits)
    requires forall k :: k in keys ==> CleanKey(k) == k
    ensures Kept(SortedKeys(Points, keys), lim) == FirstKeys(keys, lim)
  {
    hide SortedKeys, CleanKey, Names;
    SortedPoints(keys);
    CleanNamesAreKeys(SortedKeys(Points, keys));
  }

  lemma KeptIn(keys: set<Key>, lim: Limits, k: Key)
    requires k in FirstKeys(keys, lim)
    ensures k in SortedKeys(Points, keys)
  {
    hide SortedKeys;
  }

  lemma KeptInTurn(h: Heap, own: Id, payload: map<Key, Value>, lim: Limits, k: Key)
    requires lim.maxDepth > 0 && payload != map[] && k in HardenedRound(h, own, payload, lim)
    requires k in SortedKeys(Points, payload.Keys)
    ensures InTurn(h, own, payload, lim, k, HardenedRound(h, own, payload, lim)[k])
  {
    hide HardenedRound, HardenSorted, SortedKeys, CleanKey, HardenedAt, WithPayload, Kept;
    RoundIsSorted(h, own, payload, lim);
    MapKeepsFirstNames(WithPayload(h, own, payload), payload, Open(Mark(Walk({}, []), Some(own)), own), 0, lim);
  }

  /** With more distinct keys than the cap, some attribute of the first round disappears. */
  lemma PastTheCapOneDisappears(h: Heap, own: Id, payload: map<Key, Value>, lim: Limits)
    requires lim.maxDepth > 0 && 0 < lim.maxAttrs < |payload| && forall k :: k in payload ==> CleanKey(k) == k
    ensures exists k :: k in payload && k !in HardenedRound(h, own, payload, lim)
  {
    RoundKeeps(h, own, payload, lim);
    hide HardenedRound, CleanKey;
    SortedPoints(payload.Keys);
    var first := FirstKeys(payload.Keys, lim);
    FewIn(first);
    hide SortedKeys;
    if forall k :: k in payload ==> k in HardenedRound(h, own, payload, lim) {
      assert payload.Keys <= set k | k in first;
      SmallerOrEqual(payload.Keys, set k | k in first);
      assert |payload.Keys| == |payload|;
      SortedCount(payload.Keys);
      assert false;
    }
  }

  lemma {:induction false} FewIn(s: seq<Key>)
    ensures |set k | k in s| <= |s|
  {
    if s == [] {
      assert (set k | k in s) == {};
    } else {
      FewIn(s[1..]);
      assert s == [s[0]] + s[1..];
      assert (set k | k in s) == {s[0]} + set k | k in s[1..];
    }
  }

  lemma SortedCount(keys: set<Key>)
    ensures |SortedKeys(Points, keys)| == |keys|
  {
    SortedPoints(keys);
    hide SortedKeys;
    CountOf(SortedKeys(Points, keys), keys);
  }

  lemma {:induction false} CountOf(keys: seq<Key>, ks: set<Key>)
    requires Distinct(keys) && forall k :: k in keys <==> k in ks
    ensures |keys| == |ks|
    decreases |keys|
  {
    if keys == [] {
      assert ks == {};
    } else {
      assert keys == [keys[0]] + keys[1..];
      CountOf(keys[1..], ks - {keys[0]});
    }
  }

  /** Each attribute in order, if hardening kept its key in its round and the engine keeps what came of it. */
  function ByRound(
    attrs: seq<Attr<Value>>, rounds: seq<nat>, hardened: seq<map<Key, Out>>, judge: (Key, Out) -> Option<Out>,
    wrap: Out -> Value): seq<Attr<Value>>
    requires |rounds| == |attrs| && forall i :: 0 <= i < |rounds| ==> rounds[i] < |hardened|
  {
    if attrs == [] then []
    else
      var n := |attrs| - 1;
      var rest, k, m := ByRound(attrs[..n], rounds[..n], hardened, judge, wrap), attrs[n].key, hardened[rounds[n]];
      if k !in m || judge(k, m[k]).None? then rest else rest + [Attr(k, wrap(judge(k, m[k]).value))]
  }

  /** The engine adds no entry under a key of the record. */
  ghost predicate AddsNoneOf(engine: map<Key, Out> -> map<Key, Out>, attrs: seq<Attr<Value>>) {
    forall m, i :: 0 <= i < |attrs| && attrs[i].key in engine(m) ==> attrs[i].key in m
  }

  predicate SettledBy(a: Attr<Value>, m: map<Key, Out>, s: map<Key, Out>, judge: (Key, Out) -> Option<Out>) {
    if a.key !in m || judge(a.key, m[a.key]).None? then a.key !in s
    else a.key in s && s[a.key] == judge(a.key, m[a.key]).value
  }

  lemma {:induction false} RebuildIsByRound(
    attrs: seq<Attr<Value>>, rounds: seq<nat>, hardened: seq<map<Key, Out>>, sanitized: seq<map<Key, Out>>,
    judge: (Key, Out) -> Option<Out>, wrap: Out -> Value)
    requires |rounds| == |attrs| && |sanitized| == |hardened| &&
      forall i :: 0 <= i < |rounds| ==> rounds[i] < |hardened|
    requires forall i :: 0 <= i < |attrs| ==> SettledBy(attrs[i], hardened[rounds[i]], sanitized[rounds[i]], judge)
    ensures Rebuilt(attrs, rounds, sanitized, wrap) == ByRound(attrs, rounds, hardened, judge, wrap)
  {
    if attrs != [] {
      var n := |attrs| - 1;
      forall i | 0 <= i < n
        ensures SettledBy(attrs[..n][i], hardened[rounds[..n][i]], sanitized[rounds[..n][i]], judge)
      {
        assert SettledBy(attrs[i], hardened[rounds[i]], sanitized[rounds[i]], judge);
      }
      RebuildIsByRound(attrs[..n], rounds[..n], hardened, sanitized, judge, wrap);
      assert SettledBy(attrs[n], hardened[rounds[n]], sanitized[rounds[n]], judge);
    }
  }

  lemma EngineSettles(
    attrs: seq<Attr<Value>>, i: nat, m: map<Key, Out>, engine: map<Key, Out> -> map<Key, Out>,
    judge: (Key, Out) -> Option<Out>)
    requires i < |attrs| && EntryWise(engine, judge) && AddsNoneOf(engine, attrs)
    ensures SettledBy(attrs[i], m, engine(m), judge)
  {}

  /** applyPII on any record: what comes out is decided attribute by attribute by what hardening leaves of its
      round. When moreover the distinct keys fit the cap and the attributes of a round share no reference, that
      is the same as hardening and judging the attributes one by one. */
  method ApplyPii(
    h: Heap, own: Id, record: seq<Attr<Value>>, engine: map<Key, Out> -> map<Key, Out>, wrap: Out -> Value, lim: Limits,
    ghost reach: seq<set<Id>>)
    returns (out: seq<Attr<Value>>, ghost rounds: seq<nat>, ghost payloads: seq<map<Key, Value>>,
      ghost hardened: seq<map<Key, Out>>)
    requires lim.maxDepth > 0
    ensures Numbered(Cleaned(record), rounds) && |payloads| == |hardened|
    ensures forall i :: 0 <= i < |rounds| ==> rounds[i] < |hardened|
    ensures forall r :: 0 <= r < |payloads| ==>
      Holds(payloads[r], Cleaned(record), rounds, r, |rounds|, (v: Value) => v) &&
      hardened[r] == HardenedRound(h, own, payloads[r], lim)
    ensures forall judge: (Key, Out) -> Option<Out> ::
      EntryWise(engine, judge) && AddsNoneOf(engine, Cleaned(record)) ==>
        out == ByRound(Cleaned(record), rounds, hardened, judge, wrap)
    ensures forall judge: (Key, Out) -> Option<Out> ::
      EntryWise(engine, judge) && Separate(h, own, Cleaned(record), rounds, reach, lim) ==>
        out == OneByOne(Cleaned(record), judge, (v: Value) => Alone(h, v, 1, lim), wrap)
  {
    hide Holds, EntryWise, Judged, Rebuilt, OneByOne, ByRound, Count, Separate, Alone, AloneTable, CleanKey,
      AddsNoneOf, SettledBy, HardenedRound;
    var attrs := Cleaned(record);
    var numbers := Occurrences(attrs);
    rounds, payloads, hardened := numbers, [], [];
    var n := RoundCount(numbers);
    var sanitized: seq<map<Key, Out>> := [];
    for round := 0 to n
      invariant |sanitized| == |payloads| == |hardened| == round
      invariant forall r :: 0 <= r < round ==> Holds(payloads[r], attrs, numbers, r, |attrs|, (v: Value) => v)
      invariant forall r :: 0 <= r < round ==> hardened[r] == HardenedRound(h, own, payloads[r], lim)
      invariant forall r :: 0 <= r < round ==> sanitized[r] == engine(hardened[r])
    {
      var payload := RoundPayload(attrs, numbers, round, (v: Value) => v);
      var m := HardenAttrs(h, own, payload, lim);
      payloads, hardened, sanitized := payloads + [payload], hardened + [m], sanitized + [engine(m)];
    }
    out := RebuildInOrder(attrs, numbers, sanitized, wrap);
    forall judge: (Key, Out) -> Option<Out> | EntryWise(engine, judge) && AddsNoneOf(engine, attrs)
      ensures out == ByRound(attrs, numbers, hardened, judge, wrap)
    {
      forall i | 0 <= i < |attrs| ensures SettledBy(attrs[i], hardened[numbers[i]], sanitized[numbers[i]], judge) {
        EngineSettles(attrs, i, hardened[numbers[i]], engine, judge);
      }
      RebuildIsByRound(attrs, numbers, hardened, sanitized, judge, wrap);
    }
    forall judge: (Key, Out) -> Option<Out> | EntryWise(engine, judge) && Separate(h, own, attrs, numbers, reach, lim)
      ensures out == OneByOne(attrs, judge, (v: Value) => Alone(h, v, 1, lim), wrap)
    {
      forall i | 0 <= i < |attrs|
        ensures Judged(attrs[i], sanitized[numbers[i]], judge, (v: Value) => Alone(h, v, 1, lim))
      {
        CleanedIsClean(record);
        RoundAlone(h, own, attrs, numbers, numbers[i], payloads[numbers[i]], reach, lim);
        assert HardenedRound(h, own, payloads[numbers[i]], lim) ==
          AloneTable(h, payloads[numbers[i]], payloads[numbers[i]].Keys, 1,
            lim) by { RoundOf(h, own, payloads[numbers[i]], lim); }
        AttrJudged(h, attrs, numbers, i, payloads[numbers[i]], engine, judge, lim);
      }
      RebuildIsOneByOne(attrs, numbers, sanitized, judge, (v: Value) => Alone(h, v, 1, lim), wrap);
    }
  }

  lemma RoundOf(h: Heap, own: Id, payload: map<Key, Value>, lim: Limits)
    ensures var o := Hardened(WithPayload(h, own, payload), Map(own), lim).o;
      o.OMap? ==> HardenedRound(h, own, payload, lim) == o.m
  {}

  /** _hardenAttrs. */
  method HardenAttrs(h: Heap, own: Id, payload: map<Key, Value>, lim: Limits) returns (m: map<Key, Out>)
    ensures m == HardenedRound(h, own, payload, lim)
  {
    hide HardenValue;
    var o := HardenWalk.Run(WithPayload(h, own, payload), Map(own), lim);
    m := if o.OMap? then o.m else map[];
  }

  lemma CleanedIsClean(record: seq<Attr<Value>>)
    ensures forall i :: 0 <= i < |record| ==> CleanKey(Cleaned(record)[i].key) == Cleaned(record)[i].key
  {
    hide CleanKey;
    forall i | 0 <= i < |record|
      ensures CleanKey(Cleaned(record)[i].key) == Cleaned(record)[i].key
    {
      CleanIsClean(record[i].key);
    }
  }

  lemma AttrJudged(
    h: Heap, attrs: seq<Attr<Value>>, rounds: seq<nat>, i: nat, payload: map<Key, Value>,
    engine: map<Key, Out> -> map<Key, Out>, judge: (Key, Out) -> Option<Out>, lim: Limits)
    requires |rounds| == |attrs| && i < |attrs| && EntryWise(engine, judge)
    requires Holds(payload, attrs, rounds, rounds[i], |attrs|, (v: Value) => v)
    ensures Judged(attrs[i], engine(AloneTable(h, payload, payload.Keys, 1, lim)), judge, (v: Value) =>
      Alone(h, v, 1, lim))
  {
    hide Alone;
    assert attrs[i].key in payload && payload[attrs[i].key] == attrs[i].value;
    var m := AloneTable(h, payload, payload.Keys, 1, lim);
    assert attrs[i].key in m && m[attrs[i].key] == Alone(h, attrs[i].value, 1, lim);
  }
}
