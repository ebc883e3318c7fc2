/** Attribute order and duplicate keys across the sanitizing pass (go/logger_pii_order.go, and
    applyPII at go/logger.go:347-372). The rule engine takes and returns maps; the record's attributes are an
    ordered list with duplicate keys. A is an attribute's value, V the value the engine works on. */
module PiiRounds {
  import opened Common

  type Key = string
  datatype Attr<A> = Attr(key: Key, value: A)

  // ---- rounds -------------------------------------------------------------------------------------

  /** How often k occurs among attrs. */
  function Count<A>(attrs: seq<Attr<A>>, k: Key): nat {
    if attrs == [] then 0
    else Count(attrs[..|attrs| - 1], k) + if attrs[|attrs| - 1].key == k then 1 else 0
  }

  /** Each attribute's round: how many attributes before it have its key. */
  ghost predicate Numbered<A>(attrs: seq<Attr<A>>, rounds: seq<nat>) {
    |rounds| == |attrs| && forall i :: 0 <= i < |attrs| ==> rounds[i] == Count(attrs[..i], attrs[i].key)
  }

  lemma CountNext<A>(attrs: seq<Attr<A>>, i: nat, k: Key)
    requires i < |attrs|
    ensures Count(attrs[..i + 1], k) == Count(attrs[..i], k) + if attrs[i].key == k then 1 else 0
  {
    assert attrs[..i + 1][..i] == attrs[..i];
  }

  lemma {:induction false} CountGrows<A>(attrs: seq<Attr<A>>, i: nat, j: nat, k: Key)
    requires i <= j <= |attrs|
    ensures Count(attrs[..i], k) <= Count(attrs[..j], k)
    decreases j
  {
    if i < j {
      CountGrows(attrs, i, j - 1, k);
      CountNext(attrs, j - 1, k);
    }
  }

  /** Every round holds each key at most once, so a map can carry it. */
  lemma RoundHoldsKeyOnce<A>(attrs: seq<Attr<A>>, rounds: seq<nat>, i: nat, j: nat)
    requires Numbered(attrs, rounds) && i < |attrs| && j < |attrs|
    requires attrs[i].key == attrs[j].key && rounds[i] == rounds[j]
    ensures i == j
  {
    var a, b := if i < j then i else j, if i < j then j else i;
    if a < b {
      CountNext(attrs, a, attrs[a].key);
      CountGrows(attrs, a + 1, b, attrs[a].key);
    }
  }

  /** seen counts the keys of the first i attributes. */
  ghost predicate Tally<A>(seen: map<Key, nat>, attrs: seq<Attr<A>>, i: nat)
    requires i <= |attrs|
  {
    forall k :: Count(attrs[..i], k) == Seen(seen, k)
  }

  function Seen(seen: map<Key, nat>, k: Key): nat { if k in seen then seen[k] else 0 }

  lemma TallyNext<A>(seen: map<Key, nat>, attrs: seq<Attr<A>>, i: nat)
    requires i < |attrs| && Tally(seen, attrs, i)
    ensures Seen(seen, attrs[i].key) == Count(attrs[..i], attrs[i].key)
    ensures Tally(seen[attrs[i].key := Seen(seen, attrs[i].key) + 1], attrs, i + 1)
  {
    hide Count;
    var next := seen[attrs[i].key := Seen(seen, attrs[i].key) + 1];
    forall k ensures Count(attrs[..i + 1], k) == Seen(next, k) {
      CountNext(attrs, i, k);
      assert Count(attrs[..i], k) == Seen(seen, k);
    }
  }

  method Occurrences<A>(attrs: seq<Attr<A>>) returns (rounds: seq<nat>)
    ensures Numbered(attrs, rounds)
  {
    var seen: map<Key, nat> := map[];
    rounds := [];
    assert Tally(seen, attrs, 0);
    hide Count, Tally;
    for i := 0 to |attrs|
      invariant |rounds| == i && Tally(seen, attrs, i)
      invariant forall j :: 0 <= j < i ==> rounds[j] == Count(attrs[..j], attrs[j].key)
    {
      TallyNext(seen, attrs, i);
      var n := Seen(seen, attrs[i].key);
      rounds := rounds + [n];
      seen := seen[attrs[i].key := n + 1];
    }
  }

  /** One more than the highest round; a record without attributes still has one round. */
  method RoundCount(rounds: seq<nat>) returns (n: nat)
    ensures n >= 1 && forall i :: 0 <= i < |rounds| ==> rounds[i] < n
    ensures n == 1 || exists i :: 0 <= i < |rounds| && rounds[i] == n - 1
  {
    var highest := 0;
    for i := 0 to |rounds|
      invariant forall j :: 0 <= j < i ==> rounds[j] <= highest
      invariant highest == 0 || exists j :: 0 <= j < i && rounds[j] == highest
    {
      if rounds[i] > highest { highest := rounds[i]; }
    }
    n := highest + 1;
  }

  /** The attributes of one round as a map: exactly their keys, each with its own value. */
  ghost predicate Holds<A, V>(
    payload: map<Key, V>, attrs: seq<Attr<A>>, rounds: seq<nat>, round: nat, n: nat, unwrap: A -> V)
    requires n <= |attrs| == |rounds|
  {
    && (forall i :: 0 <= i < n && rounds[i] == round ==>
      attrs[i].key in payload && payload[attrs[i].key] == unwrap(attrs[i].value))
    && (forall k :: k in payload ==> Present(attrs, rounds, round, n, k))
  }

  ghost predicate Present<A>(attrs: seq<Attr<A>>, rounds: seq<nat>, round: nat, n: nat, k: Key)
    requires n <= |attrs| == |rounds|
  {
    exists i :: 0 <= i < n && rounds[i] == round && attrs[i].key == k
  }

  method RoundPayload<A, V>(
    attrs: seq<Attr<A>>, rounds: seq<nat>, round: nat, unwrap: A -> V)
    returns (payload: map<Key, V>)
    requires Numbered(attrs, rounds)
    ensures Holds(payload, attrs, rounds, round, |attrs|, unwrap)
  {
    payload := map[];
    assert Holds(payload, attrs, rounds, round, 0, unwrap);
    hide Holds, Count;
    for i := 0 to |attrs|
      invariant Holds(payload, attrs, rounds, round, i, unwrap)
    {
      PayloadGrows(payload, attrs, rounds, round, i, unwrap);
      if rounds[i] == round {
        payload := payload[attrs[i].key := unwrap(attrs[i].value)];
      }
    }
  }

  lemma PayloadGrows<A, V>(
    payload: map<Key, V>, attrs: seq<Attr<A>>, rounds: seq<nat>, round: nat, i: nat, unwrap: A -> V)
    requires Numbered(attrs, rounds) && i < |attrs| && Holds(payload, attrs, rounds, round, i, unwrap)
    ensures var next := if rounds[i] == round then payload[attrs[i].key := unwrap(attrs[i].value)] else payload;
      Holds(next, attrs, rounds, round, i + 1, unwrap)
  {
    hide Count;
    var next := if rounds[i] == round then payload[attrs[i].key := unwrap(attrs[i].value)] else payload;
    forall j | 0 <= j < i + 1 && rounds[j] == round
      ensures attrs[j].key in next && next[attrs[j].key] == unwrap(attrs[j].value)
    {
      if rounds[i] == round && attrs[j].key == attrs[i].key { RoundHoldsKeyOnce(attrs, rounds, i, j); }
    }
    forall k | k in next ensures Present(attrs, rounds, round, i + 1, k) {
      if rounds[i] == round && k == attrs[i].key {
        assert i < i + 1;
      } else {
        assert Present(attrs, rounds, round, i, k);
      }
    }
  }

  // ---- rebuilding ---------------------------------------------------------------------------------

  /** Walks the attributes in order and takes each one's value from the round it belongs to. */
  function Rebuilt<A, V>(attrs: seq<Attr<A>>, rounds: seq<nat>, sanitized: seq<map<Key, V>>, wrap: V -> A): seq<Attr<A>>
    requires |rounds| == |attrs| && forall i :: 0 <= i < |rounds| ==> rounds[i] < |sanitized|
  {
    if attrs == [] then []
    else
      var n := |attrs| - 1;
      var rest := Rebuilt(attrs[..n], rounds[..n], sanitized, wrap);
      var m := sanitized[rounds[n]];
      if attrs[n].key in m then rest + [Attr(attrs[n].key, wrap(m[attrs[n].key]))] else rest
  }

  lemma RebuiltNext<A, V>(attrs: seq<Attr<A>>, rounds: seq<nat>, sanitized: seq<map<Key, V>>, wrap: V -> A, i: nat)
    requires |rounds| == |attrs| && i < |attrs| && forall j :: 0 <= j < |rounds| ==> rounds[j] < |sanitized|
    ensures Rebuilt(attrs[..i + 1], rounds[..i + 1], sanitized, wrap) ==
      Rebuilt(attrs[..i], rounds[..i], sanitized, wrap) +
      if attrs[i].key in sanitized[rounds[i]] then [Attr(attrs[i].key, wrap(sanitized[rounds[i]][attrs[i].key]))]
        else []
  {
    assert attrs[..i + 1][..i] == attrs[..i] && rounds[..i + 1][..i] == rounds[..i];
  }

  method RebuildInOrder<A, V>(
    attrs: seq<Attr<A>>, rounds: seq<nat>, sanitized: seq<map<Key, V>>, wrap: V -> A)
    returns (out: seq<Attr<A>>)
    requires |rounds| == |attrs| && forall i :: 0 <= i < |rounds| ==> rounds[i] < |sanitized|
    ensures out == Rebuilt(attrs, rounds, sanitized, wrap)
  {
    out := [];
    for i := 0 to |attrs|
      invariant out == Rebuilt(attrs[..i], rounds[..i], sanitized, wrap)
    {
      RebuiltNext(attrs, rounds, sanitized, wrap, i);
      var m := sanitized[rounds[i]];
      if attrs[i].key in m {
        out := out + [Attr(attrs[i].key, wrap(m[attrs[i].key]))];
      }
    }
    assert attrs[..|attrs|] == attrs && rounds[..|attrs|] == rounds;
  }

  // ---- the engine, one attribute at a time --------------------------------------------------------

  /** The engine judges every entry by its own key and value; it may add entries of its own. */
  ghost predicate EntryWise<V(!new)>(engine: map<Key, V> -> map<Key, V>, judge: (Key, V) -> Option<V>) {
    forall m, k :: k in m ==>
      match judge(k, m[k])
      case None => k !in engine(m)
      case Some(v) => k in engine(m) && engine(m)[k] == v
  }

  /** Judging the attributes one by one: order and duplicates kept, dropped ones absent. */
  function OneByOne<A, V>(
    attrs: seq<Attr<A>>, judge: (Key, V) -> Option<V>, unwrap: A -> V, wrap: V -> A): seq<Attr<A>> {
    if attrs == [] then []
    else
      var a := attrs[|attrs| - 1];
      var rest := OneByOne(attrs[..|attrs| - 1], judge, unwrap, wrap);
      match judge(a.key, unwrap(a.value))
      case None => rest
      case Some(v) => rest + [Attr(a.key, wrap(v))]
  }

  /** m holds for a what judging a alone gives. */
  predicate Judged<A, V(==)>(a: Attr<A>, m: map<Key, V>, judge: (Key, V) -> Option<V>, unwrap: A -> V) {
    match judge(a.key, unwrap(a.value))
    case None => a.key !in m
    case Some(v) => a.key in m && m[a.key] == v
  }

  lemma RoundIsJudged<A, V(!new)>(
    attrs: seq<Attr<A>>, rounds: seq<nat>, i: nat, payload: map<Key, V>,
    engine: map<Key, V> -> map<Key, V>, judge: (Key, V) -> Option<V>, unwrap: A -> V)
    requires |rounds| == |attrs| && i < |attrs| && EntryWise(engine, judge) &&
      Holds(payload, attrs, rounds, rounds[i], |attrs|, unwrap)
    ensures Judged(attrs[i], engine(payload), judge, unwrap)
  {
    assert attrs[i].key in payload && payload[attrs[i].key] == unwrap(attrs[i].value);
  }

  lemma {:induction false} RebuildIsOneByOne<A, V>(
    attrs: seq<Attr<A>>, rounds: seq<nat>, sanitized: seq<map<Key, V>>, judge: (Key, V) -> Option<V>, unwrap: A -> V,
    wrap: V -> A)
    requires |rounds| == |attrs| && forall i :: 0 <= i < |attrs| ==> rounds[i] < |sanitized|
    requires forall i :: 0 <= i < |attrs| ==> Judged(attrs[i], sanitized[rounds[i]], judge, unwrap)
    ensures Rebuilt(attrs, rounds, sanitized, wrap) == OneByOne(attrs, judge, unwrap, wrap)
  {
    if attrs != [] {
      var n := |attrs| - 1;
      forall i | 0 <= i < n ensures Judged(attrs[..n][i], sanitized[rounds[..n][i]], judge, unwrap) {
        assert Judged(attrs[i], sanitized[rounds[i]], judge, unwrap);
      }
      RebuildIsOneByOne(attrs[..n], rounds[..n], sanitized, judge, unwrap, wrap);
      assert Judged(attrs[n], sanitized[rounds[n]], judge, unwrap);
    }
  }

  /** applyPII's attribute pass. For an engine that judges each entry alone it is the same as judging the
      attributes one by one. */
  method SanitizeAttrs<A, V(!new)>(
    attrs: seq<Attr<A>>, engine: map<Key, V> -> map<Key, V>, unwrap: A -> V, wrap: V -> A)
    returns (out: seq<Attr<A>>)
    ensures forall judge: (Key, V) -> Option<V> ::
      EntryWise(engine, judge) ==> out == OneByOne(attrs, judge, unwrap, wrap)
  {
    hide Holds, EntryWise, Judged, Rebuilt, OneByOne, Count;
    var rounds := Occurrences(attrs);
    var n := RoundCount(rounds);
    var sanitized: seq<map<Key, V>> := [];
    ghost var payloads: seq<map<Key, V>> := [];
    for round := 0 to n
      invariant |sanitized| == |payloads| == round
      invariant forall r :: 0 <= r < round ==> Holds(payloads[r], attrs, rounds, r, |attrs|, unwrap)
      invariant forall r :: 0 <= r < round ==> sanitized[r] == engine(payloads[r])
    {
      var payload := RoundPayload(attrs, rounds, round, unwrap);
      payloads := payloads + [payload];
      sanitized := sanitized + [engine(payload)];
    }
    out := RebuildInOrder(attrs, rounds, sanitized, wrap);
    forall judge: (Key, V) -> Option<V> | EntryWise(engine, judge) ensures out == OneByOne(attrs, judge, unwrap, wrap) {
      forall i | 0 <= i < |attrs| ensures Judged(attrs[i], sanitized[rounds[i]], judge, unwrap) {
        RoundIsJudged(attrs, rounds, i, payloads[rounds[i]], engine, judge, unwrap);
      }
      RebuildIsOneByOne(attrs, rounds, sanitized, judge, unwrap, wrap);
    }
  }

  // ---- what judging one by one keeps --------------------------------------------------------------

  /** Of every key's attributes, as many come out as the engine keeps, in the order they went in. */
  function ValuesOf<A>(attrs: seq<Attr<A>>, k: Key): seq<A> {
    if attrs == [] then []
    else ValuesOf(attrs[..|attrs| - 1], k) + if attrs[|attrs| - 1].key == k then [attrs[|attrs| - 1].value] else []
  }

  lemma {:induction false} KeepingAllKeepsEveryDuplicate<A, V>(
    attrs: seq<Attr<A>>, judge: (Key, V) -> Option<V>, unwrap: A -> V, wrap: V -> A, k: Key)
    requires forall i :: 0 <= i < |attrs| ==> judge(attrs[i].key, unwrap(attrs[i].value)).Some?
    ensures var out := OneByOne(attrs, judge, unwrap, wrap);
      |out| == |attrs| && (forall i :: 0 <= i < |attrs| ==> out[i].key == attrs[i].key) &&
        |ValuesOf(out, k)| == Count(attrs, k)
  {
    if attrs != [] {
      var n := |attrs| - 1;
      KeepingAllKeepsEveryDuplicate(attrs[..n], judge, unwrap, wrap, k);
      var out := OneByOne(attrs, judge, unwrap, wrap);
      assert out[..n] == OneByOne(attrs[..n], judge, unwrap, wrap);
    }
  }
}
