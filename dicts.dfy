/** Python dictionaries that the simulation iterates over or aggregates keep their
    insertion order; they are modelled here as association lists with distinct keys.
    Updating a present key keeps its position, a new key goes to the end. */
module Dicts {

  datatype Option<T> = None | Some(value: T)

  type Dict<K, V> = seq<(K, V)>

  /** The keys of a dictionary, as a set. */
  function KeySet<K(==), V>(d: Dict<K, V>): set<K>
  {
    set i | 0 <= i < |d| :: d[i].0
  }

  predicate DistinctKeys<K(==), V>(d: Dict<K, V>)
  {
    forall i, j :: 0 <= i < j < |d| ==> d[i].0 != d[j].0
  }

  /** Position of key `k` in `d`, or -1 when it is absent. */
  function IndexOf<K(==), V>(d: Dict<K, V>, k: K): (r: int)
    ensures -1 <= r < |d|
    ensures r == -1 <==> k !in KeySet(d)
    ensures r >= 0 ==> d[r].0 == k && forall i :: 0 <= i < r ==> d[i].0 != k
    decreases |d|
  {
    if |d| == 0 then -1
    else if d[|d| - 1].0 == k && IndexOf(d[..|d| - 1], k) == -1 then |d| - 1
    else
      var r := IndexOf(d[..|d| - 1], k);
      assert KeySet(d) == KeySet(d[..|d| - 1]) + {d[|d| - 1].0};
      r
  }

  /** `d.get(k)` */
  function Get<K(==), V>(d: Dict<K, V>, k: K): (r: Option<V>)
    ensures r.Some? <==> k in KeySet(d)
  {
    var i := IndexOf(d, k);
    if i < 0 then None else Some(d[i].1)
  }

  /** `d.get(k, default)` */
  function GetOr<K(==), V>(d: Dict<K, V>, k: K, default: V): (r: V)
    ensures k !in KeySet(d) ==> r == default
    ensures k in KeySet(d) ==> exists i :: 0 <= i < |d| && d[i] == (k, r)
  {
    match Get(d, k)
    case Some(v) => v
    case None => default
  }

  /** `d.get(k, default)` as a search from the front. */
  function Find<K(==), V>(d: Dict<K, V>, k: K, default: V): V
    decreases |d|
  {
    if |d| == 0 then default else if d[0].0 == k then d[0].1 else Find(d[1..], k, default)
  }

  /** The search from the front finds what `GetOr` finds: the value of the first entry
      with the key. */
  lemma {:induction false} FindGetOr<K, V>(d: Dict<K, V>, k: K, default: V)
    ensures Find(d, k, default) == GetOr(d, k, default)
    decreases |d|
  {
    if |d| > 0 {
      var r := IndexOf(d, k);
      assert d[0].0 in KeySet(d);
      if d[0].0 == k {
        assert r == 0;
      } else {
        var rest := d[1..];
        FindGetOr(rest, k, default);
        var r' := IndexOf(rest, k);
        if r' < 0 {
          assert k !in KeySet(d) by {
            forall i | 0 <= i < |d| ensures d[i].0 != k {
              if i > 0 {
                assert d[i] == rest[i - 1];
              }
            }
          }
        } else {
          assert d[r' + 1] == rest[r'];
          assert forall i :: 1 <= i < r' + 1 ==> d[i] == rest[i - 1];
          assert r == r' + 1;
        }
      }
    }
  }

  /** The value found for the key at position `i` is the one stored there, when no
      earlier entry has that key. */
  lemma GetOrAt<K, V>(d: Dict<K, V>, i: nat, default: V)
    requires i < |d| && forall j :: 0 <= j < i ==> d[j].0 != d[i].0
    ensures GetOr(d, d[i].0, default) == d[i].1
  {
    assert d[i].0 in KeySet(d);
    assert IndexOf(d, d[i].0) == i;
  }

  /** `d[k] = v` */
  function Put<K(==, !new), V>(d: Dict<K, V>, k: K, v: V): (r: Dict<K, V>)
    ensures KeySet(r) == KeySet(d) + {k}
    ensures |r| == if k in KeySet(d) then |d| else |d| + 1
    ensures DistinctKeys(d) ==> DistinctKeys(r)
    ensures Get(r, k) == Some(v)
    ensures forall k' :: k' != k ==> Get(r, k') == Get(d, k')
    ensures forall i :: 0 <= i < |r| ==> r[i] == (k, v) || r[i] in d
  {
    var i := IndexOf(d, k);
    if i < 0 then
      var r := d + [(k, v)];
      assert forall k' :: k' != k ==> IndexOf(r, k') == IndexOf(d, k') by {
        forall k' | k' != k ensures IndexOf(r, k') == IndexOf(d, k') {
          assert r[..|r| - 1] == d;
        }
      }
      assert KeySet(r) == KeySet(d) + {k} by {
        forall x | x in KeySet(d) ensures x in KeySet(r) {
          var j :| 0 <= j < |d| && d[j].0 == x;
          assert r[j].0 == x;
        }
        assert r[|d|].0 == k;
      }
      r
    else
      var r := d[i := (k, v)];
      assert KeySet(r) == KeySet(d) by {
        forall x | x in KeySet(d) ensures x in KeySet(r) {
          var j :| 0 <= j < |d| && d[j].0 == x;
          assert r[j].0 == x;
        }
      }
      IndexOfUpdate(d, i, k, v);
      r
  }

  lemma {:induction false} IndexOfUpdate<K(!new), V>(d: Dict<K, V>, i: nat, k: K, v: V)
    requires i < |d| && d[i].0 == k
    ensures forall k' :: IndexOf(d[i := (k, v)], k') == IndexOf(d, k')
    decreases |d|
  {
    var r := d[i := (k, v)];
    if i < |d| - 1 {
      assert r[..|r| - 1] == d[..|d| - 1][i := (k, v)];
      IndexOfUpdate(d[..|d| - 1], i, k, v);
    } else {
      assert r[..|r| - 1] == d[..|d| - 1];
    }
  }

  /** The sum of `f` over the values of a dictionary. */
  function SumBy<K(==), V>(d: Dict<K, V>, f: V -> int): int
    decreases |d|
  {
    if |d| == 0 then 0 else SumBy(d[..|d| - 1], f) + f(d[|d| - 1].1)
  }

  lemma {:induction false} SumByUpdate<K, V>(d: Dict<K, V>, i: nat, e: (K, V), f: V -> int)
    requires i < |d|
    ensures SumBy(d[i := e], f) == SumBy(d, f) - f(d[i].1) + f(e.1)
    decreases |d|
  {
    var r := d[i := e];
    if i < |d| - 1 {
      assert r[..|r| - 1] == d[..|d| - 1][i := e];
      SumByUpdate(d[..|d| - 1], i, e, f);
    } else {
      assert r[..|r| - 1] == d[..|d| - 1];
    }
  }

  /** Storing `v` under `k` changes the sum by the difference between the new and
      the old value (absent counts as `zero`). */
  lemma SumByPut<K(!new), V>(d: Dict<K, V>, k: K, v: V, zero: V, f: V -> int)
    requires f(zero) == 0
    ensures SumBy(Put(d, k, v), f) == SumBy(d, f) - f(GetOr(d, k, zero)) + f(v)
  {
    var i := IndexOf(d, k);
    if i < 0 {
      assert (d + [(k, v)])[..|d|] == d;
    } else {
      SumByUpdate(d, i, (k, v), f);
    }
  }
}
