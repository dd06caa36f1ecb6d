/**
 * The front end of the eventkit library (scope.go, registry.go): a
 * Registry fans every submitted event map out to its senders, and a Scope
 * turns a name and a flat list of key/value arguments into an event map.
 *
 * A sender's QueueSend is code outside this model; the registry keeps the
 * calls it makes as the list `delivered`.  Go's `interface{}` arguments
 * become `Value`s, and time.Now() is a parameter.
 */
module Eventkit {
  import opened Wrappers
  import opened Text
  import opened Clock

  /** The dynamic values an event map holds. */
  datatype Value =
    | Str(s: GoString)
    | Names(names: seq<GoString>)
    | Instant(t: Time)
    | Other(id: nat)

  type EventMap = map<GoString, Value>

  /** A sender is known only by its identity. */
  type SenderId = nat

  /** The three keys Scope.Event sets itself. */
  const NameKey: GoString := "name"
  const ScopeKey: GoString := "scope"
  const TimestampKey: GoString := "timestamp"

  const ErrUnmatched: string := "tag name/value pairs unmatched"
  /** Go's panic on the failed assertion `tags[i].(string)`. */
  const ErrKeyNotString: string := "interface conversion: interface {} is not string"

  /** The key/value arguments read pair by pair, left to right; the first non-string key panics. */
  function Paired(tags: seq<Value>): Outcome<EventMap>
    requires |tags| % 2 == 0
    decreases |tags|
  {
    if tags == [] then Returns(map[])
    else
      var key, value := tags[|tags| - 2], tags[|tags| - 1];
      match Paired(tags[..|tags| - 2])
      case Panics(m) => Panics(m)
      case Returns(em) => if key.Str? then Returns(em[key.s := value]) else Panics(ErrKeyNotString)
  }

  /** The event map Scope.Event submits, or its panic. */
  function EventMapOf(name: GoString, scope: seq<GoString>, tags: seq<Value>, now: Time): Outcome<EventMap>
  {
    if |tags| % 2 != 0 then Panics(ErrUnmatched)
    else match Paired(tags)
      case Panics(m) => Panics(m)
      case Returns(em) => Returns(em[NameKey := Str(name)][ScopeKey := Names(scope)][TimestampKey := Instant(now)])
  }

  /** One QueueSend call per sender, in registration order, each with the same map. */
  function Deliveries(senders: seq<SenderId>, em: EventMap): (r: seq<(SenderId, EventMap)>)
    ensures |r| == |senders|
    ensures forall i :: 0 <= i < |r| ==> r[i] == (senders[i], em)
  {
    seq(|senders|, i requires 0 <= i < |senders| => (senders[i], em))
  }

  /** A key argument: an even position holding a string. */
  predicate KeyAt(tags: seq<Value>, j: int, k: GoString)
  {
    0 <= j < |tags| && j % 2 == 0 && tags[j] == Str(k)
  }

  /** Reading the pairs panics exactly when some key is not a string. */
  lemma {:induction false} PairedPanics(tags: seq<Value>)
    requires |tags| % 2 == 0
    ensures Paired(tags).Panics? <==> exists j :: 0 <= j < |tags| && j % 2 == 0 && !tags[j].Str?
    decreases |tags|
  {
    if tags != [] {
      var n := |tags| - 2;
      var prefix := tags[..n];
      PairedPanics(prefix);
      if Paired(prefix).Panics? {
        var j :| 0 <= j < n && j % 2 == 0 && !prefix[j].Str?;
        assert !tags[j].Str?;
      } else if tags[n].Str? {
        forall j | 0 <= j < |tags| && j % 2 == 0 ensures tags[j].Str? {
          if j < n {
            assert tags[j] == prefix[j];
          }
        }
      }
    }
  }

  /** When reading the pairs succeeds, a key is present exactly when some pair names it. */
  lemma {:induction false} PairedKeys(tags: seq<Value>, k: GoString)
    requires |tags| % 2 == 0 && Paired(tags).Returns?
    ensures k in Paired(tags).value <==> exists j :: KeyAt(tags, j, k)
    decreases |tags|
  {
    if tags != [] {
      var n := |tags| - 2;
      var prefix := tags[..n];
      assert Paired(prefix).Returns? && tags[n].Str?;
      PairedKeys(prefix, k);
      var em := Paired(prefix).value;
      assert Paired(tags).value == em[tags[n].s := tags[n + 1]];
      assert forall j :: KeyAt(tags, j, k) && j != n ==> KeyAt(prefix, j, k);
      if k == tags[n].s {
        assert KeyAt(tags, n, k);
      } else if k in em {
        var j :| KeyAt(prefix, j, k);
        assert KeyAt(tags, j, k);
      }
    }
  }

  /** When reading the pairs succeeds, a key maps to the value of the last pair naming it. */
  lemma {:induction false} PairedLastWins(tags: seq<Value>, k: GoString, j: int)
    requires |tags| % 2 == 0 && Paired(tags).Returns?
    requires KeyAt(tags, j, k) && forall l :: j < l < |tags| ==> !KeyAt(tags, l, k)
    ensures k in Paired(tags).value && Paired(tags).value[k] == tags[j + 1]
    decreases |tags|
  {
    var n := |tags| - 2;
    var prefix := tags[..n];
    assert Paired(prefix).Returns? && tags[n].Str?;
    var em := Paired(prefix).value;
    assert Paired(tags).value == em[tags[n].s := tags[n + 1]];
    if j < n {
      assert !KeyAt(tags, n, k);
      assert KeyAt(prefix, j, k);
      forall l | j < l < |prefix| ensures !KeyAt(prefix, l, k) {
        assert !KeyAt(tags, l, k);
      }
      PairedLastWins(prefix, k, j);
    }
  }

  /** An odd number of arguments panics before any pair is read. */
  lemma OddArgumentsPanic(name: GoString, scope: seq<GoString>, tags: seq<Value>, now: Time)
    requires |tags| % 2 == 1
    ensures EventMapOf(name, scope, tags, now) == Panics(ErrUnmatched)
  {
  }

  /** "name", "scope" and "timestamp" are written after the tags, so they win over tags of the same name. */
  lemma ReservedKeysWin(name: GoString, scope: seq<GoString>, tags: seq<Value>, now: Time)
    requires |tags| % 2 == 0 && Paired(tags).Returns?
    ensures var em := EventMapOf(name, scope, tags, now);
      em.Returns? && em.value[NameKey] == Str(name) && em.value[ScopeKey] == Names(scope) && em.value[TimestampKey] == Instant(now)
  {
    var pairs := Paired(tags).value;
    assert EventMapOf(name, scope, tags, now) == Returns(pairs[NameKey := Str(name)][ScopeKey := Names(scope)][TimestampKey := Instant(now)]);
  }

  /** Every other key of the submitted map is the tags' own. */
  lemma OtherKeysFromTags(name: GoString, scope: seq<GoString>, tags: seq<Value>, now: Time, k: GoString)
    requires |tags| % 2 == 0 && Paired(tags).Returns?
    requires k != NameKey && k != ScopeKey && k != TimestampKey
    ensures var em := EventMapOf(name, scope, tags, now);
      em.Returns? && (k in em.value <==> k in Paired(tags).value) && (k in em.value ==> em.value[k] == Paired(tags).value[k])
  {
    var pairs := Paired(tags).value;
    assert EventMapOf(name, scope, tags, now) == Returns(pairs[NameKey := Str(name)][ScopeKey := Names(scope)][TimestampKey := Instant(now)]);
  }

  class Registry {
    var senders: seq<SenderId>
    /** The QueueSend calls made so far: which sender got which map. */
    var delivered: seq<(SenderId, EventMap)>

    /** NewRegistry: no senders, nothing sent. */
    constructor()
      ensures senders == [] && delivered == []
    {
      senders := [];
      delivered := [];
    }

    /** Scope: a root scope of this registry named [name]. */
    method Scope(name: GoString) returns (s: Scope)
      ensures fresh(s) && s.registry == this && s.name == [name]
    {
      s := new Scope(this, [name]);
    }

    /** AddOutput: the sender goes last. */
    method AddOutput(sender: SenderId)
      modifies this
      ensures senders == old(senders) + [sender] && delivered == old(delivered)
    {
      senders := senders + [sender];
    }

    /** Submit: hands the map to every sender once, in registration order. */
    method Submit(em: EventMap)
      modifies this
      ensures senders == old(senders)
      ensures delivered == old(delivered) + Deliveries(senders, em)
    {
      for i := 0 to |senders|
        invariant senders == old(senders)
        invariant delivered == old(delivered) + Deliveries(senders[..i], em)
      {
        assert Deliveries(senders[..i + 1], em) == Deliveries(senders[..i], em) + [(senders[i], em)];
        delivered := delivered + [(senders[i], em)];
      }
      assert senders[..|senders|] == senders;
    }
  }

  class Scope {
    const registry: Registry
    const name: seq<GoString>

    constructor(registry: Registry, name: seq<GoString>)
      ensures this.registry == registry && this.name == name
    {
      this.registry := registry;
      this.name := name;
    }

    /** Subscope: a new scope of the same registry, named by this scope's name and then `name`. */
    method Subscope(name: GoString) returns (s: Scope)
      ensures fresh(s) && s.registry == registry && s.name == this.name + [name]
    {
      s := new Scope(registry, this.name + [name]);
    }

    /**
     * Event: builds the map from the key/value arguments and the three
     * reserved keys, then submits it once; a panic submits nothing.
     */
    method Event(name: GoString, tags: seq<Value>, now: Time) returns (panicked: Option<string>)
      modifies registry
      ensures registry.senders == old(registry.senders)
      ensures panicked.Some? <==> EventMapOf(name, this.name, tags, now).Panics?
      ensures panicked.Some? ==>
        panicked.value == EventMapOf(name, this.name, tags, now).message && registry.delivered == old(registry.delivered)
      ensures panicked.None? ==>
        registry.delivered == old(registry.delivered) + Deliveries(registry.senders, EventMapOf(name, this.name, tags, now).value)
    {
      if |tags| % 2 != 0 {
        return Some(ErrUnmatched);
      }
      var em: EventMap := map[];
      var i := 0;
      while i < |tags|
        invariant 0 <= i <= |tags| && i % 2 == 0
        invariant Paired(tags[..i]) == Returns(em)
      {
        assert tags[..i + 2][..i] == tags[..i];
        if !tags[i].Str? {
          PairedPrefixPanics(tags, i + 2);
          return Some(ErrKeyNotString);
        }
        em := em[tags[i].s := tags[i + 1]];
        i := i + 2;
      }
      assert tags[..|tags|] == tags;
      em := em[NameKey := Str(name)];
      em := em[ScopeKey := Names(this.name)];
      em := em[TimestampKey := Instant(now)];
      registry.Submit(em);
      return None;
    }
  }

  /** Once a prefix of the arguments panics, so do all of them, with the same message. */
  lemma {:induction false} PairedPrefixPanics(tags: seq<Value>, n: nat)
    requires n <= |tags| && n % 2 == 0 && |tags| % 2 == 0 && Paired(tags[..n]).Panics?
    ensures Paired(tags) == Paired(tags[..n])
    decreases |tags| - n
  {
    if n < |tags| {
      assert tags[..n + 2][..n] == tags[..n];
      PairedPrefixPanics(tags, n + 2);
    } else {
      assert tags[..n] == tags;
    }
  }
}
