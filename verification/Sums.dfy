/** Sums over the entries of a finite map, independent of any order. */
module Sums {

  ghost function Sum<K, V>(m: map<K, V>, f: (K, V) -> int): int
    decreases |m|
  {
    if m == map[] then 0
    else
      var k :| k in m;
      f(k, m[k]) + Sum(m - {k}, f)
  }

  lemma {:induction false} SumTake<K, V>(m: map<K, V>, f: (K, V) -> int, k: K)
    requires k in m
    ensures Sum(m, f) == f(k, m[k]) + Sum(m - {k}, f)
    decreases |m|
  {
    var j :| j in m && Sum(m, f) == f(j, m[j]) + Sum(m - {j}, f);
    if j != k {
      SumTake(m - {j}, f, k);
      SumTake(m - {k}, f, j);
      assert (m - {j}) - {k} == (m - {k}) - {j};
    }
  }

  /** Writing one entry changes the sum by that entry's difference. */
  lemma SumPut<K, V>(m: map<K, V>, f: (K, V) -> int, k: K, v: V)
    ensures Sum(m[k := v], f) == Sum(m, f) - (if k in m then f(k, m[k]) else 0) + f(k, v)
  {
    SumTake(m[k := v], f, k);
    if k in m {
      SumTake(m, f, k);
      assert m[k := v] - {k} == m - {k};
    } else {
      assert m[k := v] - {k} == m;
    }
  }

  /** Only the contributions of the map's own entries matter. */
  lemma {:induction false} SumPointwise<K, V>(m: map<K, V>, f: (K, V) -> int, g: (K, V) -> int)
    requires forall k :: k in m ==> g(k, m[k]) == f(k, m[k])
    ensures Sum(m, g) == Sum(m, f)
    decreases |m|
  {
    if m != map[] {
      var k :| k in m && Sum(m, g) == g(k, m[k]) + Sum(m - {k}, g);
      SumTake(m, f, k);
      SumPointwise(m - {k}, f, g);
    }
  }

  // Maps spelled out as a list of keys with their values.

  ghost predicate Lists<K, V>(m: map<K, V>, keys: seq<K>, values: seq<V>) {
    && |keys| == |values|
    && (forall i, j :: 0 <= i < j < |keys| ==> keys[i] != keys[j])
    && (forall j :: 0 <= j < |keys| ==> keys[j] in m && m[keys[j]] == values[j])
    && (forall k :: k in m ==> k in keys)
  }

  /** Moving one entry to a key nobody else has. */
  lemma Rekey<K, V>(m: map<K, V>, keys: seq<K>, values: seq<V>, i: nat, k: K, v: V)
    requires Lists(m, keys, values) && i < |keys|
    requires forall j :: 0 <= j < |keys| && j != i ==> keys[j] != k
    ensures Lists((m - {keys[i]})[k := v], keys[i := k], values[i := v])
  {
    var m' := (m - {keys[i]})[k := v];
    forall x | x in m' ensures x in keys[i := k] {
      if x == k {
        assert keys[i := k][i] == x;
      } else {
        var j :| 0 <= j < |keys| && keys[j] == x;
        assert keys[i := k][j] == x;
      }
    }
  }

  ghost function ListTotal<V>(values: seq<V>, f: V -> int): int {
    if values == [] then 0 else ListTotal(values[..|values| - 1], f) + f(values[|values| - 1])
  }

  lemma {:induction false} ListTotalScaled<V, W>(values: seq<V>, f: V -> int, others: seq<W>, g: W -> int, c: int)
    requires |values| == |others|
    requires forall j :: 0 <= j < |values| ==> g(others[j]) == c * f(values[j])
    ensures ListTotal(others, g) == c * ListTotal(values, f)
  {
    if values != [] {
      ListTotalScaled(values[..|values| - 1], f, others[..|others| - 1], g, c);
    }
  }

  lemma ListsDropLast<K, V>(m: map<K, V>, keys: seq<K>, values: seq<V>)
    requires Lists(m, keys, values) && keys != []
    ensures var last := |keys| - 1; Lists(m - {keys[last]}, keys[..last], values[..last])
  {
  }

  /** The sum over a map is the sum over its list. */
  lemma {:induction false} SumIsListTotal<K, V>(m: map<K, V>, keys: seq<K>, values: seq<V>, f: V -> int, g: (K, V) -> int)
    requires Lists(m, keys, values)
    requires forall j :: 0 <= j < |keys| ==> g(keys[j], values[j]) == f(values[j])
    ensures Sum(m, g) == ListTotal(values, f)
    decreases |keys|
  {
    if keys == [] {
      assert m == map[];
    } else {
      var last := |keys| - 1;
      SumTake(m, g, keys[last]);
      ListsDropLast(m, keys, values);
      SumIsListTotal(m - {keys[last]}, keys[..last], values[..last], f, g);
    }
  }
}
