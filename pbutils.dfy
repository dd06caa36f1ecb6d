/**
 * Helpers of the pb package (pb/utils.go): conversion between an instant
 * and a Timestamp message, and the text rendering of tags.
 *
 * The renderings Go delegates to fmt and time (floats, durations, instants)
 * are parameters of the model.
 */
module PbUtils {
  import opened Wrappers
  import opened Text
  import opened Binary
  import opened Clock
  import opened Pb

  /** AsTimestamp: whole seconds (rounded down) and the nanoseconds within the second. */
  function AsTimestamp(t: Time): (ts: Timestamp)
    requires Representable(t)
    ensures 0 <= ts.nanos < Second
    ensures ts.seconds * Second <= t < (ts.seconds + 1) * Second
  {
    SecondsNanos(t / Second, t % Second)
  }

  /** Timestamp.AsTime: time.Unix(seconds, nanos), which also accepts nanos out of range. */
  function AsTime(ts: Timestamp): Time
  {
    ts.seconds * Second + ts.nanos
  }

  lemma AsTimeAsTimestamp(t: Time)
    requires Representable(t)
    ensures AsTime(AsTimestamp(t)) == t
  {
  }

  lemma AsTimestampAsTime(ts: Timestamp)
    requires 0 <= ts.nanos < Second
    ensures Representable(AsTime(ts)) && AsTimestamp(AsTime(ts)) == ts
  {
    var t := AsTime(ts);
    assert t / Second == ts.seconds && t % Second == ts.nanos by {
      DivModUnique(t, ts.seconds, ts.nanos);
    }
  }

  lemma DivModUnique(t: int, q: int, r: int)
    requires 0 <= r < Second && t == q * Second + r
    ensures t / Second == q && t % Second == r
  {
  }

  /** The renderings Go takes from fmt and time: float64 bits, Duration.String, Time.String. */
  datatype Formats = Formats(float: uint64 -> GoString, duration: int64 -> GoString, instant: Time -> GoString)

  const True: GoString := "true"
  const False: GoString := "false"

  /** Tag.ValueString: "" for no value, a rendering per variant, a panic for a variant it does not know. */
  function ValueString(tag: Tag, f: Formats): (r: Outcome<GoString>)
    ensures tag.value.None? ==> r == Returns([])
    ensures tag.value.Some? && tag.value.value.StringValue? ==> r == Returns(tag.value.value.str)
    ensures tag.value.Some? && tag.value.value.BytesValue? ==>
              r.Returns? && |r.value| == 2 * |tag.value.value.bytes| && HexDecode(r.value) == Some(tag.value.value.bytes)
    ensures r.Panics? <==> tag.value.Some? && tag.value.value.DurationValue?
  {
    match tag.value
    case None => Returns([])
    case Some(v) =>
      match v
      case StringValue(s) => Returns(s)
      case Int64Value(i) => Returns(Itoa(i))
      case DoubleValue(bits) => Returns(f.float(bits))
      case BoolValue(b) => Returns(if b then True else False)
      case BytesValue(b) => HexRoundTrip(b); Returns(HexEncode(b))
      case DurationNsValue(ns) => Returns(f.duration(ns))
      case TimestampValue(ts) => Returns(f.instant(AsTime(ts)))
      case DurationValue(_) => Panics("*pb.Tag_Duration")
  }

  /** Tag.KVString: key, '=', rendered value. */
  function KVString(tag: Tag, f: Formats): (r: Outcome<GoString>)
  {
    match ValueString(tag, f)
    case Panics(m) => Panics(m)
    case Returns(v) => Returns(tag.key + "=" + v)
  }

  /** The KVString of every tag, in order; the first panic wins. */
  function KVStrings(tags: seq<Tag>, f: Formats): (r: Outcome<seq<GoString>>)
    ensures r.Returns? ==> |r.value| == |tags|
    decreases |tags|
  {
    if tags == [] then Returns([])
    else
      match KVString(tags[0], f)
      case Panics(m) => Panics(m)
      case Returns(kv) =>
        match KVStrings(tags[1..], f)
        case Panics(m) => Panics(m)
        case Returns(rest) => Returns([kv] + rest)
  }

  /** Event.TagsString: the KVStrings joined with single spaces. */
  function TagsString(e: Event, f: Formats): (r: Outcome<GoString>)
  {
    match KVStrings(e.tags, f)
    case Panics(m) => Panics(m)
    case Returns(parts) => Returns(Join(parts, " "))
  }

  lemma KVStringShape(tag: Tag, f: Formats)
    requires ValueString(tag, f).Returns?
    ensures KVString(tag, f) == Returns(tag.key + "=" + ValueString(tag, f).value)
    ensures KVString(tag, f).value[|tag.key|] == '='
  {
  }

  /** A tag list renders without panicking exactly when no tag holds the unknown variant. */
  lemma {:induction false} KVStringsPanic(tags: seq<Tag>, f: Formats)
    ensures KVStrings(tags, f).Panics? <==> exists i :: 0 <= i < |tags| && tags[i].value.Some? && tags[i].value.value.DurationValue?
    decreases |tags|
  {
    if tags != [] {
      KVStringsPanic(tags[1..], f);
      if KVStrings(tags[1..], f).Panics? {
        var i :| 0 <= i < |tags[1..]| && tags[1..][i].value.Some? && tags[1..][i].value.value.DurationValue?;
        assert tags[i + 1] == tags[1..][i];
      }
      forall i | 1 <= i < |tags|
        ensures tags[i] == tags[1..][i - 1]
      {
      }
    }
  }

  lemma TagsStringEmpty(e: Event, f: Formats)
    requires e.tags == []
    ensures TagsString(e, f) == Returns([])
  {
  }

  /**
   * When no rendered tag contains a space, splitting TagsString on spaces
   * gives back the KVString of every tag, in order.
   */
  lemma TagsStringSplit(e: Event, f: Formats)
    requires e.tags != [] && KVStrings(e.tags, f).Returns?
    requires forall i :: 0 <= i < |e.tags| ==> ' ' !in KVStrings(e.tags, f).value[i]
    ensures Split(TagsString(e, f).value, " ") == KVStrings(e.tags, f).value
  {
    var parts := KVStrings(e.tags, f).value;
    forall i | 0 <= i < |parts|
      ensures NoSepInside(parts[i], " ")
    {
      NoSpaceNoSep(parts[i]);
    }
    SplitJoin(parts, " ");
  }

  lemma NoSpaceNoSep(p: GoString)
    requires ' ' !in p
    ensures NoSepInside(p, " ")
  {
    forall i | 0 <= i < |p|
      ensures !(" " <= (p + " ")[i..])
    {
      assert (p + " ")[i..][0] == p[i];
    }
  }
}
