/** Python dictionaries with their insertion order (`dict`, `OrderedDict`),
    as a sequence of key/value pairs. A real dictionary never holds a key twice;
    `DistinctKeys` states that invariant, and the operations below keep it. */
module Dicts {
  import opened Wrappers

  function Keys<K, V>(d: seq<(K, V)>): (ks: seq<K>)
    ensures |ks| == |d|
    ensures forall i :: 0 <= i < |d| ==> ks[i] == d[i].0
  {
    seq(|d|, i requires 0 <= i < |d| => d[i].0)
  }

  ghost predicate DistinctKeys<K, V>(d: seq<(K, V)>) {
    forall i, j :: 0 <= i < j < |d| ==> d[i].0 != d[j].0
  }

  /** `d.get(k)`: the value stored under `k`, if any. */
  function Get<K(==), V>(d: seq<(K, V)>, k: K): (r: Option<V>)
    ensures r.None? <==> k !in Keys(d)
    decreases |d|
  {
    if |d| == 0 then None
    else if d[0].0 == k then Some(d[0].1)
    else Get(d[1..], k)
  }

  /** `d[k] = v`: an existing key keeps its position and takes the new value;
      a new key is appended. */
  function Set<K(==), V>(d: seq<(K, V)>, k: K, v: V): seq<(K, V)>
    decreases |d|
  {
    if |d| == 0 then [(k, v)]
    else if d[0].0 == k then [(k, v)] + d[1..]
    else [d[0]] + Set(d[1..], k, v)
  }

  lemma {:induction false} SetGet<K, V>(d: seq<(K, V)>, k: K, v: V, j: K)
    ensures Get(Set(d, k, v), j) == if j == k then Some(v) else Get(d, j)
    decreases |d|
  {
    if |d| > 0 && d[0].0 != k {
      SetGet(d[1..], k, v, j);
      assert ([d[0]] + Set(d[1..], k, v))[1..] == Set(d[1..], k, v);
    }
  }

  lemma {:induction false} SetKeys<K, V>(d: seq<(K, V)>, k: K, v: V)
    ensures Keys(Set(d, k, v)) == if k in Keys(d) then Keys(d) else Keys(d) + [k]
    decreases |d|
  {
    if |d| > 0 && d[0].0 != k {
      SetKeys(d[1..], k, v);
      assert Keys(d) == [d[0].0] + Keys(d[1..]);
      assert Keys([d[0]] + Set(d[1..], k, v)) == [d[0].0] + Keys(Set(d[1..], k, v));
    } else if |d| > 0 {
      assert Keys(d) == [k] + Keys(d[1..]);
      assert Keys([(k, v)] + d[1..]) == [k] + Keys(d[1..]);
    }
  }

  lemma SetDistinct<K, V>(d: seq<(K, V)>, k: K, v: V)
    requires DistinctKeys(d)
    ensures DistinctKeys(Set(d, k, v))
  {
    SetKeys(d, k, v);
    var r := Set(d, k, v);
    forall i, j | 0 <= i < j < |r|
      ensures r[i].0 != r[j].0
    {
      assert Keys(r)[i] == r[i].0 && Keys(r)[j] == r[j].0;
      if j == |d| {
        assert Keys(r) == Keys(d) + [k];
        assert r[i].0 == d[i].0;
      } else {
        assert r[i].0 == d[i].0 && r[j].0 == d[j].0;
      }
    }
  }

  lemma SetFresh<K, V>(d: seq<(K, V)>, k: K, v: V)
    requires k !in Keys(d)
    ensures Set(d, k, v) == d + [(k, v)]
    decreases |d|
  {
    if |d| > 0 {
      assert Keys(d) == [d[0].0] + Keys(d[1..]);
      SetFresh(d[1..], k, v);
      assert [d[0]] + (d[1..] + [(k, v)]) == d + [(k, v)];
    }
  }

  /** `OrderedDict(pairs)`: the pairs stored one after the other. */
  function FromPairs<K(==), V>(pairs: seq<(K, V)>): seq<(K, V)>
    decreases |pairs|
  {
    if |pairs| == 0 then []
    else
      var last := pairs[|pairs| - 1];
      Set(FromPairs(pairs[..|pairs| - 1]), last.0, last.1)
  }

  /** Pairs whose keys are already distinct come out as they went in. */
  lemma {:induction false} FromDistinctPairs<K, V>(pairs: seq<(K, V)>)
    requires DistinctKeys(pairs)
    ensures FromPairs(pairs) == pairs
    decreases |pairs|
  {
    if |pairs| > 0 {
      var n := |pairs| - 1;
      var init := pairs[..n];
      assert DistinctKeys(init);
      FromDistinctPairs(init);
      assert pairs[n].0 !in Keys(init) by {
        forall i | 0 <= i < n
          ensures Keys(init)[i] != pairs[n].0
        {
          assert pairs[i].0 != pairs[n].0;
        }
      }
      SetFresh(init, pairs[n].0, pairs[n].1);
      assert init + [pairs[n]] == pairs;
    }
  }
}
