/**
 * The Prometheus endpoint of the daemon's listener
 * (eventkitd/listener/prometheus.go): the sanitising of names and label
 * values, and the per-output registry cache.
 *
 * Names are sequences of runes; Go's UTF-8 decoding is not modelled (an
 * invalid byte is one rune that is not a letter or digit).  A monkit
 * registry is known only by its identity: the endpoint's base registry
 * and a serial number for every registry derived from it.
 */
module Prometheus {
  predicate IsDigit(c: char) { '0' <= c <= '9' }

  /** The runes sanitize keeps: ASCII letters and digits. */
  predicate Kept(c: char) { 'a' <= c <= 'z' || 'A' <= c <= 'Z' || IsDigit(c) }

  /** The rune-by-rune mapping of sanitize: kept runes stay, all others become '_'. */
  function MapRune(c: char): char { if Kept(c) then c else '_' }

  /** sanitize: "" stays "", a leading digit gets a '_' in front, then every rune is mapped. */
  function Sanitize(val: seq<char>): (r: seq<char>)
    ensures r == [] <==> val == []
    ensures val != [] && IsDigit(val[0]) ==>
      |r| == |val| + 1 && r[0] == '_' && forall i :: 0 <= i < |val| ==> r[i + 1] == MapRune(val[i])
    ensures val != [] && !IsDigit(val[0]) ==>
      |r| == |val| && forall i :: 0 <= i < |val| ==> r[i] == MapRune(val[i])
  {
    if val == [] then []
    else
      var prefixed := if IsDigit(val[0]) then ['_'] + val else val;
      seq(|prefixed|, i requires 0 <= i < |prefixed| => MapRune(prefixed[i]))
  }

  /** The name shape Prometheus asks for, without the colons: [A-Za-z_][A-Za-z0-9_]*. */
  predicate MetricName(s: seq<char>)
  {
    s != [] && !IsDigit(s[0]) && forall i :: 0 <= i < |s| ==> Kept(s[i]) || s[i] == '_'
  }

  /** Every non-empty input sanitizes to a valid name; colons too become '_'. */
  lemma SanitizeIsName(val: seq<char>)
    requires val != []
    ensures MetricName(Sanitize(val))
  {
  }

  /** Sanitizing twice is sanitizing once. */
  lemma SanitizeIdempotent(val: seq<char>)
    ensures Sanitize(Sanitize(val)) == Sanitize(val)
  {
    var r := Sanitize(val);
    if val != [] {
      assert !IsDigit(r[0]);
      var rr := Sanitize(r);
      assert |rr| == |r|;
      forall i | 0 <= i < |r| ensures rr[i] == r[i] {
        if IsDigit(val[0]) && i > 0 {
          assert r[i] == MapRune(val[i - 1]);
        }
      }
    }
  }

  /** A registry derived from the endpoint's base registry. */
  datatype Registry = Derived(serial: nat)

  class PrometheusEndpoint {
    /** The registry each output-id has been given. */
    var registries: map<seq<char>, Registry>
    /** How many registries have been derived from the base one. */
    var derived: nat

    /** Every cached registry was derived here, and no two output-ids share one. */
    predicate Valid()
      reads this
    {
      (forall id :: id in registries ==> registries[id].serial < derived)
      && (forall a, b :: a in registries && b in registries && a != b ==> registries[a] != registries[b])
    }

    /** NewPrometheusEndpoint: nothing cached. */
    constructor()
      ensures Valid() && registries == map[] && derived == 0
    {
      registries := map[];
      derived := 0;
    }

    /**
     * registryForRequest: the registry cached for the request's output-id
     * (the empty one included), or a newly derived one, which is cached.
     */
    method RegistryForRequest(outputId: seq<char>) returns (reg: Registry)
      requires Valid()
      modifies this
      ensures Valid()
      ensures outputId in old(registries) ==> reg == old(registries)[outputId] && registries == old(registries) && derived == old(derived)
      ensures outputId !in old(registries) ==>
        reg == Derived(old(derived)) && registries == old(registries)[outputId := reg] && derived == old(derived) + 1
      ensures outputId in registries && registries[outputId] == reg
    {
      if outputId in registries {
        reg := registries[outputId];
      } else {
        reg := Derived(derived);
        derived := derived + 1;
        registries := registries[outputId := reg];
      }
    }
  }
}
