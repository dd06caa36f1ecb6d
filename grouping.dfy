/**
 * Grouping values under string keys by appending, as the sinks and the
 * BigQuery destination build their `map[string][]*Record` (one list per
 * table, in arrival order).
 */
module Grouping {
  import opened Text

  /** m with v appended to the list under k; a new key starts a list of one. */
  function Appended<T>(m: map<GoString, seq<T>>, k: GoString, v: T): (r: map<GoString, seq<T>>)
    ensures r.Keys == m.Keys + {k}
  {
    m[k := (if k in m then m[k] else []) + [v]]
  }

  /** The values of the pairs, listed under their keys, in the order of the pairs. */
  function Grouped<T>(pairs: seq<(GoString, T)>): map<GoString, seq<T>>
    decreases |pairs|
  {
    if pairs == [] then map[]
    else
      var last := pairs[|pairs| - 1];
      Appended(Grouped(pairs[..|pairs| - 1]), last.0, last.1)
  }

  /** The reference: the values of the pairs with key k, in order. */
  function Select<T>(pairs: seq<(GoString, T)>, k: GoString): seq<T>
    decreases |pairs|
  {
    if pairs == [] then []
    else
      var last := pairs[|pairs| - 1];
      Select(pairs[..|pairs| - 1], k) + (if last.0 == k then [last.1] else [])
  }

  /** A key has a list exactly when some pair carries it, and that list is the pairs' values for it, in order. */
  lemma {:induction false} GroupedSelect<T>(pairs: seq<(GoString, T)>, k: GoString)
    ensures k in Grouped(pairs) <==> exists i :: 0 <= i < |pairs| && pairs[i].0 == k
    ensures k in Grouped(pairs) ==> Grouped(pairs)[k] == Select(pairs, k)
    ensures k !in Grouped(pairs) ==> Select(pairs, k) == []
    decreases |pairs|
  {
    if pairs != [] {
      var init := pairs[..|pairs| - 1];
      GroupedSelect(init, k);
      assert forall i :: 0 <= i < |init| ==> init[i] == pairs[i];
      if exists i :: 0 <= i < |pairs| && pairs[i].0 == k {
        var i :| 0 <= i < |pairs| && pairs[i].0 == k;
        assert i < |init| ==> init[i].0 == k;
      }
    }
  }

  /** The list for key k has one entry per pair whose key is k: |Select(pairs, k)| is the number of such pairs. */
  lemma {:induction false} SelectCount<T>(pairs: seq<(GoString, T)>, k: GoString)
    ensures |Select(pairs, k)| == |set i | 0 <= i < |pairs| && pairs[i].0 == k|
    decreases |pairs|
  {
    if pairs != [] {
      var n := |pairs| - 1;
      var init := pairs[..n];
      SelectCount(init, k);
      var before := set i | 0 <= i < |init| && init[i].0 == k;
      var now := set i | 0 <= i < |pairs| && pairs[i].0 == k;
      assert forall i :: 0 <= i < n ==> init[i] == pairs[i];
      if pairs[n].0 == k {
        assert now == before + {n};
      } else {
        assert now == before;
      }
    }
  }

  /** Every value listed under k comes from a pair with key k. */
  lemma {:induction false} SelectFrom<T>(pairs: seq<(GoString, T)>, k: GoString, x: T)
    requires x in Select(pairs, k)
    ensures exists i :: 0 <= i < |pairs| && pairs[i] == (k, x)
    decreases |pairs|
  {
    var init := pairs[..|pairs| - 1];
    if x in Select(init, k) {
      SelectFrom(init, k, x);
      var i :| 0 <= i < |init| && init[i] == (k, x);
      assert pairs[i] == init[i];
    } else {
      assert pairs[|pairs| - 1] == (k, x);
    }
  }

  /** Grouping one more pair appends its value under its key. */
  lemma GroupedSnoc<T>(pairs: seq<(GoString, T)>, i: nat)
    requires i < |pairs|
    ensures Grouped(pairs[..i + 1]) == Appended(Grouped(pairs[..i]), pairs[i].0, pairs[i].1)
  {
    assert pairs[..i + 1][..i] == pairs[..i];
  }

  /** A Go map iteration order: every key of m exactly once. */
  predicate Enumerates<T>(m: map<GoString, T>, order: seq<GoString>)
  {
    (forall j :: 0 <= j < |order| ==> order[j] in m)
    && (forall t :: t in m ==> t in order)
    && (forall j, k :: 0 <= j < k < |order| ==> order[j] != order[k])
  }
}
