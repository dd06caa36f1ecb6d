/**
 * The in-memory event store of the receiver tool
 * (tools/eventkit-receiver/repo.go): every received event is kept, and the
 * browsing views count them by scope, by name within a scope, by tag key
 * within a scope and name, and by tag value for one key.
 *
 * A scope's key is its segments joined with "." (types.go).  How GetCounts
 * prints a tag value (`%s` of the protobuf oneof) is a parameter.
 */
module Repo {
  import opened Wrappers
  import opened Text
  import opened Clock
  import opened Pb
  import opened Counting

  /** An event with where and when it arrived. */
  datatype ReceivedEvent = ReceivedEvent(event: Event, source: GoString, receivedAt: Time)

  datatype Counter = Counter(scope: GoString, name: GoString, tag: GoString, count: int)

  /** ScopeStr: the scope's segments joined with ".". */
  function ScopeStr(e: ReceivedEvent): GoString
  {
    Join(e.event.scope, ".")
  }

  /** The scope key of every event, in order. */
  function Scopes(events: seq<ReceivedEvent>): (r: seq<GoString>)
    ensures |r| == |events|
  {
    if events == [] then [] else Scopes(events[..|events| - 1]) + [ScopeStr(events[|events| - 1])]
  }

  /** The names of the events of one scope, in order. */
  function NamesIn(events: seq<ReceivedEvent>, scope: GoString): seq<GoString>
  {
    if events == [] then []
    else
      var e := events[|events| - 1];
      NamesIn(events[..|events| - 1], scope) + (if ScopeStr(e) == scope then [e.event.name] else [])
  }

  predicate Matches(e: ReceivedEvent, scope: GoString, name: GoString)
  {
    ScopeStr(e) == scope && e.event.name == name
  }

  /** The keys of a tag list, in order, repeats included. */
  function KeysOf(tags: seq<Tag>): (r: seq<GoString>)
    ensures |r| == |tags|
  {
    if tags == [] then [] else KeysOf(tags[..|tags| - 1]) + [tags[|tags| - 1].key]
  }

  /** Every tag key of the events of one scope and name. */
  function TagKeysIn(events: seq<ReceivedEvent>, scope: GoString, name: GoString): seq<GoString>
  {
    if events == [] then []
    else
      var e := events[|events| - 1];
      TagKeysIn(events[..|events| - 1], scope, name) + (if Matches(e, scope, name) then KeysOf(e.event.tags) else [])
  }

  /** The printed values of the tags with key `tag`, in order. */
  function ValuesOf(tags: seq<Tag>, tag: GoString, render: Option<TagValue> -> GoString): seq<GoString>
  {
    if tags == [] then []
    else
      var t := tags[|tags| - 1];
      ValuesOf(tags[..|tags| - 1], tag, render) + (if t.key == tag then [render(t.value)] else [])
  }

  /** The printed values of tag `tag` over the events of one scope and name. */
  function ValuesIn(events: seq<ReceivedEvent>, scope: GoString, name: GoString, tag: GoString,
                    render: Option<TagValue> -> GoString): seq<GoString>
  {
    if events == [] then []
    else
      var e := events[|events| - 1];
      ValuesIn(events[..|events| - 1], scope, name, tag, render) + (if Matches(e, scope, name) then ValuesOf(e.event.tags, tag, render) else [])
  }

  /** A scope's events are as many as its scope key's occurrences. */
  lemma {:induction false} NamesCount(events: seq<ReceivedEvent>, scope: GoString)
    ensures |NamesIn(events, scope)| == multiset(Scopes(events))[scope]
    decreases |events|
  {
    if events != [] {
      var prefix := events[..|events| - 1];
      NamesCount(prefix, scope);
      assert multiset(Scopes(events)) == multiset(Scopes(prefix)) + multiset{ScopeStr(events[|events| - 1])};
    }
  }

  /** The values of one key in a tag list are as many as that key's occurrences. */
  lemma {:induction false} ValuesOfCount(tags: seq<Tag>, tag: GoString, render: Option<TagValue> -> GoString)
    ensures |ValuesOf(tags, tag, render)| == multiset(KeysOf(tags))[tag]
    decreases |tags|
  {
    if tags != [] {
      var prefix := tags[..|tags| - 1];
      ValuesOfCount(prefix, tag, render);
      assert multiset(KeysOf(tags)) == multiset(KeysOf(prefix)) + multiset{tags[|tags| - 1].key};
    }
  }

  /** Over the events of a scope and name, a tag's values are as many as its key's occurrences. */
  lemma {:induction false} ValuesCount(events: seq<ReceivedEvent>, scope: GoString, name: GoString, tag: GoString,
                                       render: Option<TagValue> -> GoString)
    ensures |ValuesIn(events, scope, name, tag, render)| == multiset(TagKeysIn(events, scope, name))[tag]
    decreases |events|
  {
    if events != [] {
      var e := events[|events| - 1];
      ValuesCount(events[..|events| - 1], scope, name, tag, render);
      if Matches(e, scope, name) {
        ValuesOfCount(e.event.tags, tag, render);
      }
    }
  }

  /** The counts of GetScopes add up to Count. */
  lemma ScopesSumToCount(events: seq<ReceivedEvent>)
    ensures Total(Tally(Scopes(events))) == |events|
  {
    TotalTally(Scopes(events));
  }

  /** The counts of GetNames(scope) add up to GetScopes()[scope], or to 0 for a scope never seen. */
  lemma NamesSumToScope(events: seq<ReceivedEvent>, scope: GoString)
    ensures Total(Tally(NamesIn(events, scope))) ==
      (if scope in Tally(Scopes(events)) then Tally(Scopes(events))[scope] else 0)
  {
    TotalTally(NamesIn(events, scope));
    NamesCount(events, scope);
    TallyCounts(Scopes(events), scope);
  }

  /** The counts of GetCounts(scope, name, tag) add up to GetTags(scope, name)[tag], or to 0. */
  lemma CountsSumToTag(events: seq<ReceivedEvent>, scope: GoString, name: GoString, tag: GoString,
                       render: Option<TagValue> -> GoString)
    ensures Total(Tally(ValuesIn(events, scope, name, tag, render))) ==
      (if tag in Tally(TagKeysIn(events, scope, name)) then Tally(TagKeysIn(events, scope, name))[tag] else 0)
  {
    TotalTally(ValuesIn(events, scope, name, tag, render));
    ValuesCount(events, scope, name, tag, render);
    TallyCounts(TagKeysIn(events, scope, name), tag);
  }

  /** GetTags counts occurrences, not events: a key given twice in one event counts twice. */
  lemma RepeatedKeyCountsTwice(e: ReceivedEvent, key: GoString, a: Option<TagValue>, b: Option<TagValue>)
    requires e.event.tags == [Tag(key, a), Tag(key, b)]
    ensures Tally(TagKeysIn([e], ScopeStr(e), e.event.name))[key] == 2
  {
    assert [e][..0] == [];
    assert KeysOf(e.event.tags) == [key, key] by {
      assert e.event.tags[..1] == [Tag(key, a)];
      assert e.event.tags[..1][..0] == [];
    }
    assert TagKeysIn([e], ScopeStr(e), e.event.name) == [key, key];
    TallyCounts([key, key], key);
  }

  /** Scope keys are joined with ".", so the scopes ["a.b"] and ["a", "b"] share a key. */
  lemma JoinedScopesCollide()
    ensures Join(["a.b"], ".") == Join(["a", "b"], ".")
  {
    assert ["a", "b"][1..] == ["b"];
  }

  /** One more event: its name joins NamesIn when its scope matches. */
  lemma NamesStep(events: seq<ReceivedEvent>, i: nat, scope: GoString)
    requires i < |events|
    ensures ScopeStr(events[i]) == scope ==> NamesIn(events[..i + 1], scope) == NamesIn(events[..i], scope) + [events[i].event.name]
    ensures ScopeStr(events[i]) != scope ==> NamesIn(events[..i + 1], scope) == NamesIn(events[..i], scope)
  {
    assert events[..i + 1][..i] == events[..i];
  }

  /** One more event: its tag keys join TagKeysIn when it matches. */
  lemma TagKeysStep(events: seq<ReceivedEvent>, i: nat, scope: GoString, name: GoString)
    requires i < |events|
    ensures Matches(events[i], scope, name) ==>
      TagKeysIn(events[..i + 1], scope, name) == TagKeysIn(events[..i], scope, name) + KeysOf(events[i].event.tags)
    ensures !Matches(events[i], scope, name) ==> TagKeysIn(events[..i + 1], scope, name) == TagKeysIn(events[..i], scope, name)
  {
    assert events[..i + 1][..i] == events[..i];
  }

  /** One more event: its values of `tag` join ValuesIn when it matches. */
  lemma ValuesStep(events: seq<ReceivedEvent>, i: nat, scope: GoString, name: GoString, tag: GoString,
                   render: Option<TagValue> -> GoString)
    requires i < |events|
    ensures Matches(events[i], scope, name) ==>
      ValuesIn(events[..i + 1], scope, name, tag, render) ==
        ValuesIn(events[..i], scope, name, tag, render) + ValuesOf(events[i].event.tags, tag, render)
    ensures !Matches(events[i], scope, name) ==>
      ValuesIn(events[..i + 1], scope, name, tag, render) == ValuesIn(events[..i], scope, name, tag, render)
  {
    assert events[..i + 1][..i] == events[..i];
  }

  /** One more tag: its key joins the count of `before`. */
  lemma KeysStep(before: seq<GoString>, tags: seq<Tag>, j: nat)
    requires j < |tags|
    ensures before + KeysOf(tags[..j + 1]) == (before + KeysOf(tags[..j])) + [tags[j].key]
  {
    assert tags[..j + 1][..j] == tags[..j];
  }

  /** One more tag: its printed value joins when its key is `tag`. */
  lemma ValuesOfStep(before: seq<GoString>, tags: seq<Tag>, j: nat, tag: GoString, render: Option<TagValue> -> GoString)
    requires j < |tags|
    ensures tags[j].key == tag ==>
      before + ValuesOf(tags[..j + 1], tag, render) == (before + ValuesOf(tags[..j], tag, render)) + [render(tags[j].value)]
    ensures tags[j].key != tag ==> before + ValuesOf(tags[..j + 1], tag, render) == before + ValuesOf(tags[..j], tag, render)
  {
    assert tags[..j + 1][..j] == tags[..j];
  }

  /** The inner loop of GetTags: one event's tag keys counted on top of `before`. */
  method CountKeys(res0: map<GoString, int>, ghost before: seq<GoString>, tags: seq<Tag>) returns (res: map<GoString, int>)
    requires res0 == Tally(before)
    ensures res == Tally(before + KeysOf(tags))
  {
    res := res0;
    assert before + KeysOf(tags[..0]) == before;
    for j := 0 to |tags|
      invariant res == Tally(before + KeysOf(tags[..j]))
    {
      ghost var counted := before + KeysOf(tags[..j]);
      var key := tags[j].key;
      KeysStep(before, tags, j);
      TallySnoc(counted, key);
      res := Bump(res, key);
    }
    assert tags[..|tags|] == tags;
  }

  /** The inner loop of GetCounts: one event's values of `tag` counted on top of `before`. */
  method CountValues(res0: map<GoString, int>, ghost before: seq<GoString>, tags: seq<Tag>, tag: GoString,
                     render: Option<TagValue> -> GoString) returns (res: map<GoString, int>)
    requires res0 == Tally(before)
    ensures res == Tally(before + ValuesOf(tags, tag, render))
  {
    res := res0;
    assert before + ValuesOf(tags[..0], tag, render) == before;
    for j := 0 to |tags|
      invariant res == Tally(before + ValuesOf(tags[..j], tag, render))
    {
      ghost var counted := before + ValuesOf(tags[..j], tag, render);
      ValuesOfStep(before, tags, j, tag, render);
      var t := tags[j];
      if t.key == tag {
        var key := render(t.value);
        assert before + ValuesOf(tags[..j + 1], tag, render) == counted + [key];
        TallySnoc(counted, key);
        res := Bump(res, key);
      } else {
        assert before + ValuesOf(tags[..j + 1], tag, render) == counted;
      }
    }
    assert tags[..|tags|] == tags;
  }

  class Repo {
    var events: seq<ReceivedEvent>
    var counters: seq<Counter>

    /** NewRepo: empty. */
    constructor()
      ensures events == [] && counters == []
    {
      events := [];
      counters := [];
    }

    /** Add: the event goes last. */
    method Add(e: ReceivedEvent)
      modifies this
      ensures events == old(events) + [e] && counters == old(counters)
    {
      events := events + [e];
    }

    /** Count: how many events are stored; GetScopes' counts add up to it. */
    method Count() returns (n: int)
      ensures n == |events| && n == Total(Tally(Scopes(events)))
    {
      ScopesSumToCount(events);
      n := |events|;
    }

    /** GetScopes: how many events each scope key has. */
    method GetScopes() returns (res: map<GoString, int>)
      ensures res == Tally(Scopes(events))
    {
      res := map[];
      for i := 0 to |events|
        invariant res == Tally(Scopes(events[..i]))
      {
        assert events[..i + 1][..i] == events[..i];
        var key := ScopeStr(events[i]);
        TallySnoc(Scopes(events[..i]), key);
        res := Bump(res, key);
      }
      assert events[..|events|] == events;
    }

    /** GetNames: how many events of the scope each name has. */
    method GetNames(scope: GoString) returns (res: map<GoString, int>)
      ensures res == Tally(NamesIn(events, scope))
    {
      res := map[];
      for i := 0 to |events|
        invariant res == Tally(NamesIn(events[..i], scope))
      {
        NamesStep(events, i, scope);
        if ScopeStr(events[i]) == scope {
          var key := events[i].event.name;
          TallySnoc(NamesIn(events[..i], scope), key);
          res := Bump(res, key);
        }
      }
      assert events[..|events|] == events;
    }

    /** GetTags: how many times each tag key occurs in the events of the scope and name. */
    method GetTags(scope: GoString, name: GoString) returns (res: map<GoString, int>)
      ensures res == Tally(TagKeysIn(events, scope, name))
    {
      res := map[];
      for i := 0 to |events|
        invariant res == Tally(TagKeysIn(events[..i], scope, name))
      {
        TagKeysStep(events, i, scope, name);
        var e := events[i];
        if ScopeStr(e) == scope && e.event.name == name {
          assert Matches(e, scope, name);
          res := CountKeys(res, TagKeysIn(events[..i], scope, name), e.event.tags);
        }
      }
      assert events[..|events|] == events;
    }

    /** GetCounts: how many times each printed value of tag `tag` occurs in the events of the scope and name. */
    method GetCounts(scope: GoString, name: GoString, tag: GoString, render: Option<TagValue> -> GoString)
      returns (res: map<GoString, int>)
      ensures res == Tally(ValuesIn(events, scope, name, tag, render))
    {
      res := map[];
      for i := 0 to |events|
        invariant res == Tally(ValuesIn(events[..i], scope, name, tag, render))
      {
        ValuesStep(events, i, scope, name, tag, render);
        var e := events[i];
        if ScopeStr(e) == scope && e.event.name == name {
          assert Matches(e, scope, name);
          res := CountValues(res, ValuesIn(events[..i], scope, name, tag, render), e.event.tags, tag, render);
        }
      }
      assert events[..|events|] == events;
    }
  }
}
