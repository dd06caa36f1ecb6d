/**
 * The eventkit wire messages (package pb): Packet, Event, Tag and the
 * seconds/nanoseconds Timestamp, with their protocol-buffer encoding.
 *
 * Encoding follows proto3: a scalar field holding its zero value is not
 * written, repeated fields write one entry per element, and the member of a
 * oneof that is set is always written, zero or not.  Decoding folds the
 * fields into a message: a scalar overwrites, a repeated field appends, an
 * embedded message merges into the one already present; fields with an
 * unknown number or an unexpected wire type are skipped.
 *
 * The schema file is not part of this model; field numbers follow the
 * declaration order of each message.
 */
module Pb {
  import opened Wrappers
  import opened Text
  import opened Binary
  import opened ProtoWire

  /** google.protobuf.Timestamp / Duration shape: seconds plus nanoseconds. */
  datatype SecondsNanos = SecondsNanos(seconds: int64, nanos: int32)
  type Timestamp = SecondsNanos

  /**
   * The value of a tag.  DurationValue is the durationpb variant that the
   * older tag constructors produce; the rest of the pipeline treats it as a
   * variant it does not know.
   */
  datatype TagValue =
    | StringValue(str: GoString)
    | BytesValue(bytes: seq<byte>)
    | Int64Value(i: int64)
    | DoubleValue(bits: uint64)
    | BoolValue(b: bool)
    | DurationNsValue(ns: int64)
    | TimestampValue(ts: Timestamp)
    | DurationValue(d: SecondsNanos)

  /** A tag with a nil value is a Tag whose oneof is unset. */
  datatype Tag = Tag(key: GoString, value: Option<TagValue>)

  datatype Event = Event(name: GoString, scope: seq<GoString>, timestampOffsetNs: int64, tags: seq<Tag>)

  datatype Packet = Packet(
    application: GoString,
    applicationVersion: GoString,
    instance: GoString,
    startTimestamp: Option<Timestamp>,
    sendOffsetNs: int64,
    events: seq<Event>)

  const ZeroSecondsNanos := SecondsNanos(0, 0)
  const EmptyTag := Tag([], None)
  const EmptyEvent := Event([], [], 0, [])
  const EmptyPacket := Packet([], [], [], None, 0, [])

  // ------------------------------------------------------------- folding

  /** Apply `step` to each field in order; a failing step fails the message. */
  function Fold<M>(m: M, fs: seq<Field>, step: (M, Field) -> Option<M>): Option<M>
    decreases |fs|
  {
    if fs == [] then Some(m)
    else match step(m, fs[0])
      case None => None
      case Some(m') => Fold(m', fs[1..], step)
  }

  lemma {:induction false} FoldAppend<M>(m: M, a: seq<Field>, b: seq<Field>, step: (M, Field) -> Option<M>)
    ensures Fold(m, a + b, step) == (match Fold(m, a, step) case None => None case Some(m') => Fold(m', b, step))
    decreases |a|
  {
    if a != [] {
      assert (a + b)[1..] == a[1..] + b;
      match step(m, a[0]) {
        case None =>
        case Some(m') => FoldAppend(m', a[1..], b, step);
      }
    } else {
      assert a + b == b;
    }
  }

  function StringField(number: FieldNumber, s: GoString): Field { Field(number, Bytes(ToBytes(s))) }
  function Int64Field(number: FieldNumber, x: int64): Field { Field(number, Varint(FromInt64(x))) }

  /** A field list whose encoding fits in a Go byte slice. */
  predicate Fits(fs: seq<Field>) { |EncodeFields(fs)| < TwoTo64 }

  lemma HeadTail<T>(xs: seq<T>, ys: seq<T>)
    requires ys != []
    ensures xs + [ys[0]] + ys[1..] == xs + ys
  {
    assert [ys[0]] + ys[1..] == ys;
  }

  lemma FitsCons(f: Field, rest: seq<Field>, fs: seq<Field>)
    requires fs == [f] + rest && Fits(fs)
    ensures Fits([f]) && Fits(rest)
  {
    FitsParts([f], rest);
  }

  lemma {:induction false} FitsParts(a: seq<Field>, b: seq<Field>)
    requires Fits(a + b)
    ensures Fits(a) && Fits(b)
  {
    EncodeFieldsAppend(a, b);
  }

  lemma FitsOne(f: Field)
    requires Fits([f])
    ensures ValidField(f)
  {
    assert EncodeFields([f]) == EncodeField(f) + [];
  }

  // ------------------------------------------------- seconds and nanoseconds

  function SecondsNanosFields(t: SecondsNanos): seq<Field>
  {
    (if t.seconds != 0 then [Int64Field(1, t.seconds)] else [])
    + (if t.nanos != 0 then [Int64Field(2, t.nanos)] else [])
  }

  function EncodeSecondsNanos(t: SecondsNanos): seq<byte> { EncodeFields(SecondsNanosFields(t)) }

  function ApplySecondsNanosField(t: SecondsNanos, f: Field): Option<SecondsNanos>
  {
    if f.number == 1 && f.value.Varint? then Some(t.(seconds := ToInt64(f.value.v)))
    else if f.number == 2 && f.value.Varint? then Some(t.(nanos := ToInt32(f.value.v)))
    else Some(t)
  }

  /** Decode `data` as an embedded message merged into `base`. */
  function DecodeSecondsNanosInto(base: SecondsNanos, data: seq<byte>): Option<SecondsNanos>
  {
    match DecodeFields(data)
    case None => None
    case Some(fs) => Fold(base, fs, ApplySecondsNanosField)
  }

  /** Protocol-buffer merge of two seconds/nanoseconds messages: set fields of `b` win. */
  function MergeSecondsNanos(a: SecondsNanos, b: SecondsNanos): (r: SecondsNanos)
    ensures a == ZeroSecondsNanos ==> r == b
    ensures b == ZeroSecondsNanos ==> r == a
  {
    SecondsNanos(if b.seconds != 0 then b.seconds else a.seconds, if b.nanos != 0 then b.nanos else a.nanos)
  }

  lemma SecondsNanosMerge(base: SecondsNanos, t: SecondsNanos)
    ensures DecodeSecondsNanosInto(base, EncodeSecondsNanos(t)) == Some(MergeSecondsNanos(base, t))
  {
    var fs := SecondsNanosFields(t);
    FieldsRoundTrip(fs);
    Int32RoundTrip(t.nanos);
    var s1 := if t.seconds != 0 then base.(seconds := t.seconds) else base;
    var secondsPart := if t.seconds != 0 then [Int64Field(1, t.seconds)] else [];
    var nanosPart := if t.nanos != 0 then [Int64Field(2, t.nanos)] else [];
    FoldAppend(base, secondsPart, nanosPart, ApplySecondsNanosField);
    assert Fold(base, secondsPart, ApplySecondsNanosField) == Some(s1);
    assert Fold(s1, nanosPart, ApplySecondsNanosField) == Some(MergeSecondsNanos(base, t));
  }

  // ------------------------------------------------------------------ tags

  function TagValueField(v: TagValue): Field
  {
    match v
    case StringValue(s) => StringField(2, s)
    case BytesValue(b) => Field(3, Bytes(b))
    case Int64Value(i) => Int64Field(4, i)
    case DoubleValue(bits) => Field(5, Fixed64(bits))
    case BoolValue(b) => Field(6, Varint(if b then 1 else 0))
    case DurationNsValue(ns) => Int64Field(7, ns)
    case TimestampValue(ts) => Field(8, Bytes(EncodeSecondsNanos(ts)))
    case DurationValue(d) => Field(9, Bytes(EncodeSecondsNanos(d)))
  }

  function TagFields(t: Tag): seq<Field>
  {
    (if t.key != [] then [StringField(1, t.key)] else [])
    + (if t.value.Some? then [TagValueField(t.value.value)] else [])
  }

  function EncodeTag(t: Tag): seq<byte> { EncodeFields(TagFields(t)) }

  function ApplyTagField(t: Tag, f: Field): Option<Tag>
  {
    match f.value
    case Bytes(d) =>
      if f.number == 1 then Some(t.(key := FromBytes(d)))
      else if f.number == 2 then Some(t.(value := Some(StringValue(FromBytes(d)))))
      else if f.number == 3 then Some(t.(value := Some(BytesValue(d))))
      else if f.number == 8 then
        var base := if t.value.Some? && t.value.value.TimestampValue? then t.value.value.ts else ZeroSecondsNanos;
        (match DecodeSecondsNanosInto(base, d)
         case None => None
         case Some(ts) => Some(t.(value := Some(TimestampValue(ts)))))
      else if f.number == 9 then
        var base := if t.value.Some? && t.value.value.DurationValue? then t.value.value.d else ZeroSecondsNanos;
        (match DecodeSecondsNanosInto(base, d)
         case None => None
         case Some(du) => Some(t.(value := Some(DurationValue(du)))))
      else Some(t)
    case Varint(u) =>
      if f.number == 4 then Some(t.(value := Some(Int64Value(ToInt64(u)))))
      else if f.number == 6 then Some(t.(value := Some(BoolValue(u != 0))))
      else if f.number == 7 then Some(t.(value := Some(DurationNsValue(ToInt64(u)))))
      else Some(t)
    case Fixed64(u) =>
      if f.number == 5 then Some(t.(value := Some(DoubleValue(u)))) else Some(t)
    case Fixed32(_) => Some(t)
  }

  function DecodeTag(data: seq<byte>): Option<Tag>
  {
    match DecodeFields(data)
    case None => None
    case Some(fs) => Fold(EmptyTag, fs, ApplyTagField)
  }

  lemma TagValueRoundTrip(t: Tag, v: TagValue)
    requires t.value.None?
    requires Fits([TagValueField(v)])
    ensures ApplyTagField(t, TagValueField(v)) == Some(t.(value := Some(v)))
  {
    if v.StringValue? || v.TimestampValue? || v.DurationValue? {
      NestedTagValueRoundTrip(t, v);
    } else {
      ScalarTagValueRoundTrip(t, v);
    }
  }

  /** TagValueRoundTrip for the values carried as nested bytes. */
  lemma NestedTagValueRoundTrip(t: Tag, v: TagValue)
    requires t.value.None? && (v.StringValue? || v.TimestampValue? || v.DurationValue?)
    requires Fits([TagValueField(v)])
    ensures ApplyTagField(t, TagValueField(v)) == Some(t.(value := Some(v)))
  {
    match v {
      case StringValue(s) => StringTagValueRoundTrip(t, s);
      case TimestampValue(ts) => TimestampTagValueRoundTrip(t, ts);
      case DurationValue(d) => DurationTagValueRoundTrip(t, d);
    }
  }

  lemma StringTagValueRoundTrip(t: Tag, s: GoString)
    requires t.value.None?
    ensures ApplyTagField(t, TagValueField(StringValue(s))) == Some(t.(value := Some(StringValue(s))))
  {
    BytesRoundTrip(s, []);
  }

  lemma TimestampTagValueRoundTrip(t: Tag, ts: SecondsNanos)
    requires t.value.None?
    requires Fits([TagValueField(TimestampValue(ts))])
    ensures ApplyTagField(t, TagValueField(TimestampValue(ts))) == Some(t.(value := Some(TimestampValue(ts))))
  {
    assert TagValueField(TimestampValue(ts)) == Field(8, Bytes(EncodeSecondsNanos(ts)));
    assert DecodeSecondsNanosInto(ZeroSecondsNanos, EncodeSecondsNanos(ts)) == Some(ts) by {
      SecondsNanosMerge(ZeroSecondsNanos, ts);
    }
  }

  lemma DurationTagValueRoundTrip(t: Tag, d: SecondsNanos)
    requires t.value.None?
    requires Fits([TagValueField(DurationValue(d))])
    ensures ApplyTagField(t, TagValueField(DurationValue(d))) == Some(t.(value := Some(DurationValue(d))))
  {
    assert TagValueField(DurationValue(d)) == Field(9, Bytes(EncodeSecondsNanos(d)));
    assert DecodeSecondsNanosInto(ZeroSecondsNanos, EncodeSecondsNanos(d)) == Some(d) by {
      SecondsNanosMerge(ZeroSecondsNanos, d);
    }
  }

  /** TagValueRoundTrip for the values carried as a number. */
  lemma ScalarTagValueRoundTrip(t: Tag, v: TagValue)
    requires t.value.None? && !(v.StringValue? || v.TimestampValue? || v.DurationValue?)
    ensures ApplyTagField(t, TagValueField(v)) == Some(t.(value := Some(v)))
  {
  }

  lemma TagRoundTrip(t: Tag)
    requires Fits(TagFields(t))
    ensures DecodeTag(EncodeTag(t)) == Some(t)
  {
    var keyPart := if t.key != [] then [StringField(1, t.key)] else [];
    var valuePart := if t.value.Some? then [TagValueField(t.value.value)] else [];
    assert TagFields(t) == keyPart + valuePart;
    FitsParts(keyPart, valuePart);
    if t.key != [] { FitsOne(StringField(1, t.key)); }
    if t.value.Some? { FitsOne(TagValueField(t.value.value)); }
    FieldsRoundTrip(TagFields(t));
    FoldAppend(EmptyTag, keyPart, valuePart, ApplyTagField);
    BytesRoundTrip(t.key, []);
    var afterKey := Tag(t.key, None);
    assert Fold(EmptyTag, keyPart, ApplyTagField) == Some(afterKey);
    if t.value.Some? {
      TagValueRoundTrip(afterKey, t.value.value);
    }
  }

  lemma FitsNested(number: FieldNumber, x: seq<byte>)
    requires Fits([Field(number, Bytes(x))])
    ensures |x| < TwoTo64
  {
    assert EncodeFields([Field(number, Bytes(x))]) == EncodeField(Field(number, Bytes(x))) + [];
  }

  predicate AllValid(fs: seq<Field>) { forall i :: 0 <= i < |fs| ==> ValidField(fs[i]) }

  /** A field that is written only when `present` holds (a proto3 scalar). */
  function Opt(present: bool, f: Field): seq<Field> { if present then [f] else [] }

  lemma FoldOpt<M>(m: M, present: bool, f: Field, step: (M, Field) -> Option<M>)
    ensures Fold(m, Opt(present, f), step) == if present then step(m, f) else Some(m)
  {
    if present {
      assert Opt(present, f)[1..] == [];
    }
  }

  lemma FoldCons<M>(m: M, f: Field, rest: seq<Field>, step: (M, Field) -> Option<M>)
    ensures Fold(m, [f] + rest, step) == (match step(m, f) case None => None case Some(m') => Fold(m', rest, step))
  {
    assert ([f] + rest)[0] == f && ([f] + rest)[1..] == rest;
  }

  /** Every field of a list whose encoding fits in memory is encodable on its own. */
  lemma {:induction false} FitsAllValid(fs: seq<Field>)
    requires Fits(fs)
    ensures AllValid(fs)
    decreases |fs|
  {
    if fs != [] {
      assert fs == [fs[0]] + fs[1..];
      FitsParts([fs[0]], fs[1..]);
      FitsOne(fs[0]);
      FitsAllValid(fs[1..]);
    }
  }

  // ---------------------------------------------------------------- events

  function ScopeFields(scope: seq<GoString>): seq<Field>
    decreases |scope|
  {
    if scope == [] then [] else [StringField(2, scope[0])] + ScopeFields(scope[1..])
  }

  function TagListFields(tags: seq<Tag>): seq<Field>
    decreases |tags|
  {
    if tags == [] then [] else [Field(4, Bytes(EncodeTag(tags[0])))] + TagListFields(tags[1..])
  }

  function NameScopeFields(e: Event): seq<Field>
  {
    Opt(e.name != [], StringField(1, e.name)) + ScopeFields(e.scope)
  }

  function OffsetTagFields(e: Event): seq<Field>
  {
    Opt(e.timestampOffsetNs != 0, Int64Field(3, e.timestampOffsetNs)) + TagListFields(e.tags)
  }

  function EventFields(e: Event): seq<Field> { NameScopeFields(e) + OffsetTagFields(e) }

  function EncodeEvent(e: Event): seq<byte> { EncodeFields(EventFields(e)) }

  function ApplyEventField(e: Event, f: Field): Option<Event>
  {
    match f.value
    case Bytes(d) =>
      if f.number == 1 then Some(e.(name := FromBytes(d)))
      else if f.number == 2 then Some(e.(scope := e.scope + [FromBytes(d)]))
      else if f.number == 4 then
        (match DecodeTag(d)
         case None => None
         case Some(t) => Some(e.(tags := e.tags + [t])))
      else Some(e)
    case Varint(u) =>
      if f.number == 3 then Some(e.(timestampOffsetNs := ToInt64(u))) else Some(e)
    case _ => Some(e)
  }

  function DecodeEvent(data: seq<byte>): Option<Event>
  {
    match DecodeFields(data)
    case None => None
    case Some(fs) => Fold(EmptyEvent, fs, ApplyEventField)
  }

  lemma ScopeStep(e: Event, s: GoString)
    ensures ApplyEventField(e, StringField(2, s)) == Some(e.(scope := e.scope + [s]))
  {
    BytesRoundTrip(s, []);
  }

  lemma TagStep(e: Event, t: Tag)
    requires Fits([Field(4, Bytes(EncodeTag(t)))])
    ensures ApplyEventField(e, Field(4, Bytes(EncodeTag(t)))) == Some(e.(tags := e.tags + [t]))
    ensures ValidField(Field(4, Bytes(EncodeTag(t))))
  {
    assert ValidField(Field(4, Bytes(EncodeTag(t)))) by {
      FitsNested(4, EncodeTag(t));
      FitsOne(Field(4, Bytes(EncodeTag(t))));
    }
    assert DecodeTag(EncodeTag(t)) == Some(t) by {
      TagRoundTrip(t);
    }
  }

  lemma {:induction false} ScopeFold(e: Event, scope: seq<GoString>)
    ensures Fold(e, ScopeFields(scope), ApplyEventField) == Some(e.(scope := e.scope + scope))
    decreases |scope|
  {
    if scope != [] {
      var f := StringField(2, scope[0]);
      var e' := e.(scope := e.scope + [scope[0]]);
      ScopeStep(e, scope[0]);
      FoldCons(e, f, ScopeFields(scope[1..]), ApplyEventField);
      ScopeFold(e', scope[1..]);
      assert e.scope + [scope[0]] + scope[1..] == e.scope + scope;
    } else {
      assert e.scope + scope == e.scope;
    }
  }

  /** Decoding the first tag field appends that tag and leaves the rest of the list. */
  lemma TagListHead(e: Event, tags: seq<Tag>, fs: seq<Field>)
    requires tags != [] && fs == TagListFields(tags) && Fits(fs)
    ensures Fits(TagListFields(tags[1..]))
    ensures Fold(e, fs, ApplyEventField)
         == Fold(e.(tags := e.tags + [tags[0]]), TagListFields(tags[1..]), ApplyEventField)
  {
    var f := Field(4, Bytes(EncodeTag(tags[0])));
    FitsCons(f, TagListFields(tags[1..]), fs);
    TagStep(e, tags[0]);
    FoldCons(e, f, TagListFields(tags[1..]), ApplyEventField);
  }

  lemma {:induction false} TagListFold(e: Event, tags: seq<Tag>)
    requires Fits(TagListFields(tags))
    ensures Fold(e, TagListFields(tags), ApplyEventField) == Some(e.(tags := e.tags + tags))
    decreases |tags|
  {
    if tags != [] {
      TagListHead(e, tags, TagListFields(tags));
      TagListFold(e.(tags := e.tags + [tags[0]]), tags[1..]);
      HeadTail(e.tags, tags);
    } else {
      assert e.tags + tags == e.tags;
    }
  }

  lemma NameScopeFold(e: Event)
    requires Fits(NameScopeFields(e))
    ensures Fold(EmptyEvent, NameScopeFields(e), ApplyEventField) == Some(EmptyEvent.(name := e.name, scope := e.scope))
  {
    var a := Opt(e.name != [], StringField(1, e.name));
    FitsParts(a, ScopeFields(e.scope));
    BytesRoundTrip(e.name, []);
    FoldOpt(EmptyEvent, e.name != [], StringField(1, e.name), ApplyEventField);
    FoldAppend(EmptyEvent, a, ScopeFields(e.scope), ApplyEventField);
    ScopeFold(EmptyEvent.(name := e.name), e.scope);
    assert [] + e.scope == e.scope;
  }

  lemma OffsetTagFold(base: Event, e: Event)
    requires base.tags == [] && base.timestampOffsetNs == 0
    requires Fits(OffsetTagFields(e))
    ensures Fold(base, OffsetTagFields(e), ApplyEventField) == Some(base.(timestampOffsetNs := e.timestampOffsetNs, tags := e.tags))
  {
    var c := Opt(e.timestampOffsetNs != 0, Int64Field(3, e.timestampOffsetNs));
    FitsParts(c, TagListFields(e.tags));
    FoldOpt(base, e.timestampOffsetNs != 0, Int64Field(3, e.timestampOffsetNs), ApplyEventField);
    FoldAppend(base, c, TagListFields(e.tags), ApplyEventField);
    TagListFold(base.(timestampOffsetNs := e.timestampOffsetNs), e.tags);
    assert [] + e.tags == e.tags;
  }

  /** Every event whose encoding fits in memory decodes back to itself. */
  lemma EventRoundTrip(e: Event)
    requires Fits(EventFields(e))
    ensures DecodeEvent(EncodeEvent(e)) == Some(e)
  {
    FitsParts(NameScopeFields(e), OffsetTagFields(e));
    NameScopeFold(e);
    OffsetTagFold(EmptyEvent.(name := e.name, scope := e.scope), e);
    FitsAllValid(EventFields(e));
    FieldsRoundTrip(EventFields(e));
    FoldAppend(EmptyEvent, NameScopeFields(e), OffsetTagFields(e), ApplyEventField);
  }

  // --------------------------------------------------------------- packets

  function EventListFields(events: seq<Event>): seq<Field>
    decreases |events|
  {
    if events == [] then [] else [Field(6, Bytes(EncodeEvent(events[0])))] + EventListFields(events[1..])
  }

  function IdentityFields(p: Packet): seq<Field>
  {
    Opt(p.application != [], StringField(1, p.application))
    + Opt(p.applicationVersion != [], StringField(2, p.applicationVersion))
    + Opt(p.instance != [], StringField(3, p.instance))
  }

  function TimingFields(p: Packet): seq<Field>
  {
    Opt(p.startTimestamp.Some?, Field(4, Bytes(EncodeSecondsNanos(if p.startTimestamp.Some? then p.startTimestamp.value else ZeroSecondsNanos))))
    + Opt(p.sendOffsetNs != 0, Int64Field(5, p.sendOffsetNs))
  }

  function PacketFields(p: Packet): seq<Field>
  {
    IdentityFields(p) + TimingFields(p) + EventListFields(p.events)
  }

  /** proto.Marshal of a Packet. */
  function Marshal(p: Packet): seq<byte> { EncodeFields(PacketFields(p)) }

  function ApplyPacketField(p: Packet, f: Field): Option<Packet>
  {
    match f.value
    case Bytes(d) =>
      if f.number == 1 then Some(p.(application := FromBytes(d)))
      else if f.number == 2 then Some(p.(applicationVersion := FromBytes(d)))
      else if f.number == 3 then Some(p.(instance := FromBytes(d)))
      else if f.number == 4 then
        var base := if p.startTimestamp.Some? then p.startTimestamp.value else ZeroSecondsNanos;
        (match DecodeSecondsNanosInto(base, d)
         case None => None
         case Some(ts) => Some(p.(startTimestamp := Some(ts))))
      else if f.number == 6 then
        (match DecodeEvent(d)
         case None => None
         case Some(e) => Some(p.(events := p.events + [e])))
      else Some(p)
    case Varint(u) =>
      if f.number == 5 then Some(p.(sendOffsetNs := ToInt64(u))) else Some(p)
    case _ => Some(p)
  }

  /** proto.Unmarshal into a fresh Packet. */
  function Unmarshal(data: seq<byte>): Result<Packet>
  {
    match DecodeFields(data)
    case None => Err("proto: cannot parse invalid wire-format data")
    case Some(fs) =>
      match Fold(EmptyPacket, fs, ApplyPacketField)
      case None => Err("proto: cannot parse invalid wire-format data")
      case Some(p) => Ok(p)
  }

  function MergeIdentity(base: Packet, p: Packet): Packet
  {
    base.(application := if p.application != [] then p.application else base.application,
          applicationVersion := if p.applicationVersion != [] then p.applicationVersion else base.applicationVersion,
          instance := if p.instance != [] then p.instance else base.instance)
  }

  function MergeTiming(base: Packet, p: Packet): Packet
  {
    base.(startTimestamp :=
            match p.startTimestamp
            case None => base.startTimestamp
            case Some(t) => Some(MergeSecondsNanos(if base.startTimestamp.Some? then base.startTimestamp.value else ZeroSecondsNanos, t)),
          sendOffsetNs := if p.sendOffsetNs != 0 then p.sendOffsetNs else base.sendOffsetNs)
  }

  /**
   * Reference definition of protocol-buffer merge: the set scalar fields of
   * `p` replace those of `base`, the start timestamps merge, and the events
   * of `p` follow those of `base`.
   */
  function Merge(base: Packet, p: Packet): Packet
  {
    MergeTiming(MergeIdentity(base, p), p).(events := base.events + p.events)
  }

  lemma MergeEmpty(p: Packet)
    ensures Merge(EmptyPacket, p) == p && Merge(p, EmptyPacket) == p
  {
  }

  lemma EventStep(p: Packet, e: Event)
    requires Fits([Field(6, Bytes(EncodeEvent(e)))])
    ensures ApplyPacketField(p, Field(6, Bytes(EncodeEvent(e)))) == Some(p.(events := p.events + [e]))
    ensures ValidField(Field(6, Bytes(EncodeEvent(e))))
  {
    FitsNested(6, EncodeEvent(e));
    FitsOne(Field(6, Bytes(EncodeEvent(e))));
    EventRoundTrip(e);
  }

  /** Decoding the first event field appends that event and leaves the rest of the list. */
  lemma EventListHead(base: Packet, events: seq<Event>, fs: seq<Field>)
    requires events != [] && fs == EventListFields(events) && Fits(fs)
    ensures Fits(EventListFields(events[1..]))
    ensures Fold(base, fs, ApplyPacketField)
         == Fold(base.(events := base.events + [events[0]]), EventListFields(events[1..]), ApplyPacketField)
  {
    var f := Field(6, Bytes(EncodeEvent(events[0])));
    FitsCons(f, EventListFields(events[1..]), fs);
    EventStep(base, events[0]);
    FoldCons(base, f, EventListFields(events[1..]), ApplyPacketField);
  }

  lemma {:induction false} EventListFold(base: Packet, events: seq<Event>)
    requires Fits(EventListFields(events))
    ensures Fold(base, EventListFields(events), ApplyPacketField) == Some(base.(events := base.events + events))
    decreases |events|
  {
    if events != [] {
      EventListHead(base, events, EventListFields(events));
      EventListFold(base.(events := base.events + [events[0]]), events[1..]);
      HeadTail(base.events, events);
    } else {
      assert base.events + events == base.events;
    }
  }

  lemma IdentityFold(base: Packet, p: Packet)
    requires Fits(IdentityFields(p))
    ensures Fold(base, IdentityFields(p), ApplyPacketField) == Some(MergeIdentity(base, p))
  {
    var a := Opt(p.application != [], StringField(1, p.application));
    var b := Opt(p.applicationVersion != [], StringField(2, p.applicationVersion));
    var c := Opt(p.instance != [], StringField(3, p.instance));
    FitsParts(a + b, c);
    FitsParts(a, b);
    BytesRoundTrip(p.application, []);
    BytesRoundTrip(p.applicationVersion, []);
    BytesRoundTrip(p.instance, []);
    var p1 := if p.application != [] then base.(application := p.application) else base;
    var p2 := if p.applicationVersion != [] then p1.(applicationVersion := p.applicationVersion) else p1;
    FoldOpt(base, p.application != [], StringField(1, p.application), ApplyPacketField);
    FoldOpt(p1, p.applicationVersion != [], StringField(2, p.applicationVersion), ApplyPacketField);
    FoldOpt(p2, p.instance != [], StringField(3, p.instance), ApplyPacketField);
    FoldAppend(base, a + b, c, ApplyPacketField);
    FoldAppend(base, a, b, ApplyPacketField);
  }

  lemma TimingFold(base: Packet, p: Packet)
    requires Fits(TimingFields(p))
    ensures Fold(base, TimingFields(p), ApplyPacketField) == Some(MergeTiming(base, p))
  {
    var t := if p.startTimestamp.Some? then p.startTimestamp.value else ZeroSecondsNanos;
    var d := Opt(p.startTimestamp.Some?, Field(4, Bytes(EncodeSecondsNanos(t))));
    var e := Opt(p.sendOffsetNs != 0, Int64Field(5, p.sendOffsetNs));
    var p4 := if p.startTimestamp.Some? then MergeTiming(base, p).(sendOffsetNs := base.sendOffsetNs) else base;
    assert Fold(base, d, ApplyPacketField) == Some(p4) by {
      FitsParts(d, e);
      SecondsNanosMerge(if base.startTimestamp.Some? then base.startTimestamp.value else ZeroSecondsNanos, t);
      FoldOpt(base, p.startTimestamp.Some?, Field(4, Bytes(EncodeSecondsNanos(t))), ApplyPacketField);
    }
    assert Fold(p4, e, ApplyPacketField) == Some(MergeTiming(base, p)) by {
      FoldOpt(p4, p.sendOffsetNs != 0, Int64Field(5, p.sendOffsetNs), ApplyPacketField);
    }
    assert TimingFields(p) == d + e;
    FoldAppend(base, d, e, ApplyPacketField);
  }

  /** Decoding the fields of `p` on top of `base` is the merge of the two. */
  lemma PacketFold(base: Packet, p: Packet)
    requires Fits(PacketFields(p))
    ensures Fold(base, PacketFields(p), ApplyPacketField) == Some(Merge(base, p))
  {
    FitsParts(IdentityFields(p) + TimingFields(p), EventListFields(p.events));
    FitsParts(IdentityFields(p), TimingFields(p));
    IdentityFold(base, p);
    TimingFold(MergeIdentity(base, p), p);
    EventListFold(MergeTiming(MergeIdentity(base, p), p), p.events);
    FoldAppend(base, IdentityFields(p) + TimingFields(p), EventListFields(p.events), ApplyPacketField);
    FoldAppend(base, IdentityFields(p), TimingFields(p), ApplyPacketField);
  }

  /** Every packet whose encoding fits in memory decodes back to itself. */
  lemma UnmarshalMarshal(p: Packet)
    requires |Marshal(p)| < TwoTo64
    ensures Unmarshal(Marshal(p)) == Ok(p)
  {
    PacketFold(EmptyPacket, p);
    FitsAllValid(PacketFields(p));
    FieldsRoundTrip(PacketFields(p));
    MergeEmpty(p);
  }

  /** The concatenation of the encodings of several packets. */
  function MarshalAll(ps: seq<Packet>): seq<byte>
    decreases |ps|
  {
    if ps == [] then [] else Marshal(ps[0]) + MarshalAll(ps[1..])
  }

  function AllFields(ps: seq<Packet>): seq<Field>
    decreases |ps|
  {
    if ps == [] then [] else PacketFields(ps[0]) + AllFields(ps[1..])
  }

  /** Merge a sequence of packets, left to right, onto `base`. */
  function MergeAll(base: Packet, ps: seq<Packet>): Packet
    decreases |ps|
  {
    if ps == [] then base else MergeAll(Merge(base, ps[0]), ps[1..])
  }

  lemma {:induction false} MarshalAllFields(ps: seq<Packet>)
    ensures MarshalAll(ps) == EncodeFields(AllFields(ps))
    decreases |ps|
  {
    if ps != [] {
      MarshalAllFields(ps[1..]);
      EncodeFieldsAppend(PacketFields(ps[0]), AllFields(ps[1..]));
    }
  }

  lemma {:induction false} AllFieldsFold(base: Packet, ps: seq<Packet>)
    requires Fits(AllFields(ps))
    ensures Fold(base, AllFields(ps), ApplyPacketField) == Some(MergeAll(base, ps))
    decreases |ps|
  {
    if ps != [] {
      FitsParts(PacketFields(ps[0]), AllFields(ps[1..]));
      PacketFold(base, ps[0]);
      AllFieldsFold(Merge(base, ps[0]), ps[1..]);
      FoldAppend(base, PacketFields(ps[0]), AllFields(ps[1..]), ApplyPacketField);
    }
  }

  lemma {:induction false} MergeAllAppend(base: Packet, ps: seq<Packet>, qs: seq<Packet>)
    ensures MergeAll(base, ps + qs) == MergeAll(MergeAll(base, ps), qs)
    decreases |ps|
  {
    if ps == [] {
      assert ps + qs == qs;
    } else {
      assert (ps + qs)[1..] == ps[1..] + qs;
      MergeAllAppend(Merge(base, ps[0]), ps[1..], qs);
    }
  }

  /**
   * Protocol buffers merge on concatenation: the bytes of several packets
   * written one after another decode to their left-to-right merge.
   */
  lemma UnmarshalConcatenation(ps: seq<Packet>)
    requires |MarshalAll(ps)| < TwoTo64
    ensures Unmarshal(MarshalAll(ps)) == Ok(MergeAll(EmptyPacket, ps))
  {
    MarshalAllFields(ps);
    AllFieldsFold(EmptyPacket, ps);
    FitsAllValid(AllFields(ps));
    FieldsRoundTrip(AllFields(ps));
  }
}
