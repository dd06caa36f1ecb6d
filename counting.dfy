/**
 * Counting into a map the way Go's `res[key]++` does: a missing key counts
 * from zero.  Tally is the map such a loop builds from a sequence of keys;
 * Total is the sum of a map's values.
 */
module Counting {
  /** `m[k]++` on a Go map. */
  function Bump<K>(m: map<K, int>, k: K): (r: map<K, int>)
    ensures r.Keys == m.Keys + {k}
  {
    m[k := (if k in m then m[k] else 0) + 1]
  }

  /** The map of counts a loop of `res[key]++` over `keys` builds. */
  function Tally<K>(keys: seq<K>): map<K, int>
    decreases |keys|
  {
    if keys == [] then map[] else Bump(Tally(keys[..|keys| - 1]), keys[|keys| - 1])
  }

  /** One more key is one more bump. */
  lemma TallySnoc<K>(keys: seq<K>, k: K)
    ensures Tally(keys + [k]) == Bump(Tally(keys), k)
  {
    assert (keys + [k])[..|keys|] == keys;
  }

  /** A key is counted exactly when it occurs, and its count is its number of occurrences. */
  lemma {:induction false} TallyCounts<K>(keys: seq<K>, k: K)
    ensures k in Tally(keys) <==> k in keys
    ensures k in Tally(keys) ==> Tally(keys)[k] == multiset(keys)[k]
    decreases |keys|
  {
    if keys != [] {
      var prefix := keys[..|keys| - 1];
      TallyCounts(prefix, k);
      assert keys == prefix + [keys[|keys| - 1]];
      assert multiset(keys) == multiset(prefix) + multiset{keys[|keys| - 1]};
    }
  }

  /** The sum of a map's values. */
  ghost function Total<K>(m: map<K, int>): int
    decreases |m|
  {
    if m == map[] then 0
    else
      var k :| k in m;
      m[k] + Total(m - {k})
  }

  /** The sum does not depend on which key is taken first. */
  lemma {:induction false} TotalRemove<K>(m: map<K, int>, k: K)
    requires k in m
    ensures Total(m) == m[k] + Total(m - {k})
    decreases |m|
  {
    var j :| j in m && Total(m) == m[j] + Total(m - {j});
    if j != k {
      assert |m - {j}| < |m| by {
        assert (m - {j}).Keys < m.Keys;
      }
      TotalRemove(m - {j}, k);
      assert |m - {k}| < |m| by {
        assert (m - {k}).Keys < m.Keys;
      }
      TotalRemove(m - {k}, j);
      assert m - {j} - {k} == m - {k} - {j};
    }
  }

  /** A bump adds one to the sum. */
  lemma TotalBump<K>(m: map<K, int>, k: K)
    ensures Total(Bump(m, k)) == Total(m) + 1
  {
    var r := Bump(m, k);
    TotalRemove(r, k);
    if k in m {
      TotalRemove(m, k);
      assert r - {k} == m - {k};
    } else {
      assert r - {k} == m;
    }
  }

  /** The counts of a tally add up to the number of keys counted. */
  lemma {:induction false} TotalTally<K>(keys: seq<K>)
    ensures Total(Tally(keys)) == |keys|
    decreases |keys|
  {
    if keys != [] {
      TotalTally(keys[..|keys| - 1]);
      TotalBump(Tally(keys[..|keys| - 1]), keys[|keys| - 1]);
    }
  }
}
