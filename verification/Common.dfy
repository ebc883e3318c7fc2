/** Small definitions several components share. */
module Common {

  datatype Option<T> = None | Some(value: T)

  lemma {:induction false} Smaller<T>(a: set<T>, b: set<T>)
    requires a < b
    ensures |a| < |b|
  {
    var x :| x in b && x !in a;
    if a != {} {
      var y :| y in a;
      Smaller(a - {y}, b - {y});
    }
  }

  // ---- sums over finite maps --------------------------------------------------------------------

  ghost function MapSum<K>(vals: map<K, nat>): nat
    decreases |vals|
  {
    if vals == map[] then 0
    else
      var k :| k in vals;
      vals[k] + MapSum(vals - {k})
  }

  lemma {:induction false} MapSumPull<K>(vals: map<K, nat>, k: K)
    requires k in vals
    ensures MapSum(vals) == vals[k] + MapSum(vals - {k})
    decreases |vals|
  {
    var y :| y in vals && MapSum(vals) == vals[y] + MapSum(vals - {y});
    if y != k {
      MapSumPull(vals - {y}, k);
      MapSumPull(vals - {k}, y);
      assert vals - {y} - {k} == vals - {k} - {y};
    }
  }

  lemma MapSumStore<K>(vals: map<K, nat>, k: K, n: nat)
    ensures MapSum(vals[k := n]) <= MapSum(vals) + n
    ensures k !in vals ==> MapSum(vals[k := n]) == MapSum(vals) + n
    ensures k in vals ==> MapSum(vals[k := n]) == MapSum(vals) - vals[k] + n
  {
    MapSumPull(vals[k := n], k);
    assert vals[k := n] - {k} == vals - {k};
    if k in vals { MapSumPull(vals, k); } else { assert vals - {k} == vals; }
  }
}
