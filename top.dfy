/**
 * The list logic of the terminal browser's "top" view
 * (tools/eventkit-tui/top.go): a map of counts from the receiver's store
 * becomes a list of entries, the list is sorted by count and then by name,
 * and the entry selected before a refresh is selected again.
 *
 * Go's map iteration order is unspecified; it is a parameter here, a list
 * of the map's keys (Grouping.Enumerates).  The
 * list widget is a library outside this model: only the index it has
 * selected is kept.
 */
module Top {
  import opened Wrappers
  import opened Text
  import Grouping

  /** One line of a list: `kind` is Go's `class` field ("scope", "name", "tag" or "value"). */
  datatype Count = Count(kind: GoString, name: GoString, count: int)

  /** No two entries share a name. */
  predicate DistinctNames(s: seq<Count>)
  {
    forall i, j :: 0 <= i < |s| && 0 <= j < |s| && s[i].name == s[j].name ==> i == j
  }

  /**
   * countsFromMap: one entry per key of `c`, with the given kind and the
   * key's count, in iteration order.
   */
  method CountsFromMap(name: GoString, c: map<GoString, int>, order: seq<GoString>) returns (res: seq<Count>)
    requires Grouping.Enumerates(c, order)
    ensures |res| == |order|
    ensures forall i :: 0 <= i < |res| ==> res[i] == Count(name, order[i], c[order[i]])
    ensures forall k :: k in c <==> exists i :: 0 <= i < |res| && res[i].name == k
    ensures DistinctNames(res)
  {
    res := [];
    for i := 0 to |order|
      invariant |res| == i
      invariant forall l :: 0 <= l < i ==> res[l] == Count(name, order[l], c[order[l]])
    {
      res := res + [Count(name, order[i], c[order[i]])];
    }
    forall k | k in c ensures exists i :: 0 <= i < |res| && res[i].name == k {
      var i :| 0 <= i < |order| && order[i] == k;
      assert res[i].name == k;
    }
  }

  /**
   * The less function of doSort: more counts first; equal counts by name,
   * where strings.Compare(a, b) < 1 also lets equal names through.
   */
  predicate InOrder(a: Count, b: Count)
  {
    if a.count == b.count then a.name == b.name || Less(a.name, b.name) else a.count > b.count
  }

  predicate Sorted(s: seq<Count>)
  {
    forall i, j :: 0 <= i < j < |s| ==> InOrder(s[i], s[j])
  }

  /** Any two entries are in order one way or the other. */
  lemma InOrderTotal(a: Count, b: Count)
    ensures InOrder(a, b) || InOrder(b, a)
  {
    LessTotal(a.name, b.name);
  }

  lemma InOrderTransitive(a: Count, b: Count, c: Count)
    requires InOrder(a, b) && InOrder(b, c)
    ensures InOrder(a, c)
  {
    if a.count == b.count == c.count && a.name != b.name && b.name != c.name {
      LessTransitive(a.name, b.name, c.name);
    }
  }

  /** In order both ways means the same count and the same name. */
  lemma InOrderAntisymmetric(a: Count, b: Count)
    requires InOrder(a, b) && InOrder(b, a)
    ensures a.count == b.count && a.name == b.name
  {
    if a.name != b.name {
      LessAsymmetric(a.name, b.name);
    }
  }

  /**
   * Sorted with distinct names, the order is strict: more counts first,
   * and equal counts by strictly increasing name.
   */
  lemma SortedStrict(s: seq<Count>, i: int, j: int)
    requires Sorted(s) && DistinctNames(s) && 0 <= i < j < |s|
    ensures s[i].count > s[j].count || (s[i].count == s[j].count && Less(s[i].name, s[j].name))
  {
    assert InOrder(s[i], s[j]);
  }

  /**
   * Two sorted lists holding the same entries, with distinct names, are
   * the same list: the sorted view does not depend on the map's iteration
   * order.
   */
  lemma {:induction false} SortedUnique(s: seq<Count>, t: seq<Count>)
    requires Sorted(s) && Sorted(t) && DistinctNames(s) && DistinctNames(t)
    requires forall x :: x in s <==> x in t
    ensures s == t
    decreases |s|
  {
    if s != [] {
      assert s[0] in t;
    }
    if t != [] {
      assert t[0] in s;
    }
    if s != [] && t != [] {
      var k :| 0 <= k < |t| && t[k] == s[0];
      assert t[0] in s;
      var m :| 0 <= m < |s| && s[m] == t[0];
      assert InOrder(s[0], s[m]) by { if m == 0 { LessIrreflexive(s[0].name); } }
      assert InOrder(t[0], t[k]) by { if k == 0 { LessIrreflexive(t[0].name); } }
      InOrderAntisymmetric(s[0], t[0]);
      assert m == 0;
      forall x ensures x in s[1..] <==> x in t[1..] {
        if x in s[1..] {
          var i :| 1 <= i < |s| && s[i] == x;
          assert x in t;
          var l :| 0 <= l < |t| && t[l] == x;
          assert l != 0;
          assert t[1..][l - 1] == x;
        }
        if x in t[1..] {
          var i :| 1 <= i < |t| && t[i] == x;
          assert x in s;
          var l :| 0 <= l < |s| && s[l] == x;
          assert l != 0;
          assert s[1..][l - 1] == x;
        }
      }
      SortedUnique(s[1..], t[1..]);
      assert s == [s[0]] + s[1..] && t == [t[0]] + t[1..];
    }
  }

  /**
   * The insertion step's state: the prefix s[..i+1] is sorted except at
   * the hole j, and the entry at j goes before everything after it.
   */
  predicate Inserting(s: seq<Count>, i: int, j: int)
    requires 0 <= j <= i < |s|
  {
    (forall k, l :: 0 <= k < l <= i && k != j && l != j ==> InOrder(s[k], s[l]))
    && (forall l :: j < l <= i ==> InOrder(s[j], s[l]))
  }

  /** A sorted prefix plus one entry is where the insertion starts. */
  lemma InsertStart(s: seq<Count>, i: int)
    requires 0 <= i < |s| && Sorted(s[..i])
    ensures Inserting(s, i, i)
  {
    forall k, l | 0 <= k < l <= i && k != i && l != i ensures InOrder(s[k], s[l]) {
      assert s[..i][k] == s[k] && s[..i][l] == s[l];
    }
  }

  /** Swapping the entry one place down when it goes before its neighbour keeps the state. */
  lemma SwapDown(s: seq<Count>, i: int, j: int)
    requires 0 < j <= i < |s| && Inserting(s, i, j) && InOrder(s[j], s[j - 1])
    ensures Inserting(s[j - 1 := s[j]][j := s[j - 1]], i, j - 1)
  {
  }

  /** When the neighbour goes before the entry (or there is none), the prefix is sorted. */
  lemma InsertDone(s: seq<Count>, i: int, j: int)
    requires 0 <= j <= i < |s| && Inserting(s, i, j)
    requires j > 0 ==> InOrder(s[j - 1], s[j])
    ensures Sorted(s[..i + 1])
  {
    forall k, l | 0 <= k < l <= i ensures InOrder(s[k], s[l]) {
      if l == j && k < j - 1 {
        InOrderTransitive(s[k], s[j - 1], s[j]);
      }
    }
  }

  /**
   * counts.doSort: sorts in place with the less function above (an
   * insertion sort standing in for sort.Slice); the result is sorted and a
   * permutation of the input.
   */
  method DoSort(a: array<Count>)
    modifies a
    ensures Sorted(a[..])
    ensures multiset(a[..]) == multiset(old(a[..]))
  {
    for i := 0 to a.Length
      invariant Sorted(a[..i])
      invariant multiset(a[..]) == multiset(old(a[..]))
    {
      InsertStart(a[..], i);
      var j := i;
      while j > 0 && InOrder(a[j], a[j - 1])
        invariant 0 <= j <= i
        invariant Inserting(a[..], i, j)
        invariant multiset(a[..]) == multiset(old(a[..]))
      {
        SwapDown(a[..], i, j);
        a[j - 1], a[j] := a[j], a[j - 1];
        j := j - 1;
      }
      if j > 0 {
        InOrderTotal(a[j], a[j - 1]);
      }
      InsertDone(a[..], i, j);
    }
    assert a[..a.Length] == a[..];
  }

  /** The first index whose entry is named `name`, if any. */
  function FirstMatch(values: seq<Count>, name: GoString): (r: Option<nat>)
    ensures r.Some? ==>
      r.value < |values| && values[r.value].name == name && forall j :: 0 <= j < r.value ==> values[j].name != name
    ensures r.None? ==> forall j :: 0 <= j < |values| ==> values[j].name != name
  {
    if values == [] then None
    else if values[0].name == name then Some(0)
    else match FirstMatch(values[1..], name)
      case None => None
      case Some(k) => Some(k + 1)
  }

  /** The list widget, known only by the index it has selected. */
  class ListView {
    var selected: int

    constructor()
      ensures selected == 0
    {
      selected := 0;
    }

    /** Select: the widget selects index `ix`. */
    method Select(ix: int)
      modifies this
      ensures selected == ix
    {
      selected := ix;
    }
  }

  /**
   * reselect: selects the first entry named like the old selection; with
   * no such entry the selection is left as it was.
   */
  method Reselect(newValues: seq<Count>, oldValue: Count, l: ListView)
    modifies l
    ensures FirstMatch(newValues, oldValue.name).Some? ==> l.selected == FirstMatch(newValues, oldValue.name).value
    ensures FirstMatch(newValues, oldValue.name).None? ==> l.selected == old(l.selected)
  {
    for ix := 0 to |newValues|
      invariant forall j :: 0 <= j < ix ==> newValues[j].name != oldValue.name
      invariant l.selected == old(l.selected)
    {
      if newValues[ix].name == oldValue.name {
        l.Select(ix);
        return;
      }
    }
  }
}
