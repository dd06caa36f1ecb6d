/**
 * The table schema of the Storage Write API path (bigquery/schema.go):
 * loading or creating a table, extending its schema with the columns new
 * tags need, deriving the protobuf message descriptor that rows are
 * encoded with, and converting a record to a message of that descriptor.
 *
 * A descriptor is modelled as its list of fields; the message as the map
 * from field name to the value set on it.  Building the file descriptor
 * set, the protobuf marshalling of the message and the ten-second wait
 * after an update are not modelled.
 */
module BqSchema {
  import opened Wrappers
  import opened Text
  import opened Binary
  import opened Clock
  import opened Pb
  import opened BqNaming
  import opened BqRemote
  import BqRecord

  // ---------------------------------------------------------- descriptors

  /** The protobuf field types the descriptors use. */
  datatype Kind = KString | KInt64 | KDouble | KBool | KBytes

  datatype FieldDescriptor = FieldDescriptor(name: GoString, number: int, kind: Option<Kind>)

  type Descriptor = seq<FieldDescriptor>

  /** The protobuf type of a column; TIMESTAMP is carried as INT64 microseconds; no type for an untyped column. */
  function KindOf(t: FieldType): Option<Kind>
  {
    match t
    case StringType => Some(KString)
    case IntegerType => Some(KInt64)
    case TimestampType => Some(KInt64)
    case FloatType => Some(KDouble)
    case BooleanType => Some(KBool)
    case BytesType => Some(KBytes)
    case Untyped => None
  }

  /** The descriptor field of the column at index ix: numbered ix + 1. */
  function FieldAt(schema: BqNaming.Schema, ix: nat): FieldDescriptor
    requires ix < |schema|
  {
    FieldDescriptor(schema[ix].name, ix + 1, KindOf(schema[ix].fieldType))
  }

  /** The fields toMessageDescriptor keeps from the first n columns: the typed ones. */
  function MessageFields(schema: BqNaming.Schema, n: nat): (r: Descriptor)
    requires n <= |schema|
    ensures |r| <= n
    ensures forall f :: f in r ==> f.kind.Some?
    decreases n
  {
    if n == 0 then []
    else MessageFields(schema, n - 1) + (if KindOf(schema[n - 1].fieldType).Some? then [FieldAt(schema, n - 1)] else [])
  }

  /** A name protodesc accepts: a letter or '_', then letters, digits and '_'. */
  predicate Identifier(s: GoString)
  {
    |s| > 0 && (IsLetter(s[0]) || s[0] == '_') && forall i :: 0 < i < |s| ==> IsAlnum(s[i]) || s[i] == '_'
  }

  /** The checks protodesc.NewFiles makes on the field list: valid and distinct names. */
  predicate ValidFields(fields: Descriptor)
  {
    (forall i :: 0 <= i < |fields| ==> Identifier(fields[i].name))
    && (forall i, j :: 0 <= i < j < |fields| ==> fields[i].name != fields[j].name)
  }

  const ErrDescriptor: GoString := "protodesc: invalid field"

  /** toMessageDescriptor: the typed columns, numbered by their position, or the error building the file descriptor. */
  method ToMessageDescriptor(schema: BqNaming.Schema) returns (r: Result<Descriptor>)
    ensures r.Ok? <==> ValidFields(MessageFields(schema, |schema|))
    ensures r.Ok? ==> r.value == MessageFields(schema, |schema|)
  {
    var fields: Descriptor := [];
    for ix := 0 to |schema|
      invariant fields == MessageFields(schema, ix)
    {
      var kind := KindOf(schema[ix].fieldType);
      if kind.None? {
        continue;
      }
      fields := fields + [FieldDescriptor(schema[ix].name, ix + 1, kind)];
    }
    if ValidFields(fields) {
      r := Ok(fields);
    } else {
      r := Err(ErrDescriptor);
    }
  }

  /** Every kept field carries the name and type of the column its number points at. */
  lemma {:induction false} MessageFieldsNumbered(schema: BqNaming.Schema, n: nat, f: FieldDescriptor)
    requires n <= |schema| && f in MessageFields(schema, n)
    ensures 1 <= f.number <= n && f == FieldAt(schema, f.number - 1) && f.kind.Some?
    decreases n
  {
    if n > 0 && f !in (if KindOf(schema[n - 1].fieldType).Some? then [FieldAt(schema, n - 1)] else []) {
      MessageFieldsNumbered(schema, n - 1, f);
    }
  }

  /** Every typed column has its field: an untyped one is skipped and its number stays unused. */
  lemma {:induction false} MessageFieldsComplete(schema: BqNaming.Schema, n: nat, ix: nat)
    requires ix < n <= |schema| && KindOf(schema[ix].fieldType).Some?
    ensures FieldAt(schema, ix) in MessageFields(schema, n)
    decreases n
  {
    if ix < n - 1 {
      MessageFieldsComplete(schema, n - 1, ix);
    }
  }

  /** Numbers grow along the message: a gap is left where a column was skipped. */
  lemma NumberingGap()
    ensures MessageFields([FieldSchema("a", StringType), FieldSchema("b", Untyped), FieldSchema("c", BooleanType)], 3)
      == [FieldDescriptor("a", 1, Some(KString)), FieldDescriptor("c", 3, Some(KBool))]
  {
  }

  /** PBDescriptor's fields: every column, numbered by position, untyped where the type is unknown. */
  function DescriptorFields(schema: BqNaming.Schema): (r: Descriptor)
    ensures |r| == |schema|
  {
    seq(|schema|, ix requires 0 <= ix < |schema| => FieldAt(schema, ix))
  }

  /** The typed fields of a descriptor, in order. */
  function TypedFields(fields: Descriptor): Descriptor
    decreases |fields|
  {
    if fields == [] then []
    else TypedFields(fields[..|fields| - 1]) + (if fields[|fields| - 1].kind.Some? then [fields[|fields| - 1]] else [])
  }

  /** The message descriptor is PBDescriptor without its untyped fields. */
  lemma {:induction false} MessageFieldsAreTypedFields(schema: BqNaming.Schema, n: nat)
    requires n <= |schema|
    ensures MessageFields(schema, n) == TypedFields(DescriptorFields(schema)[..n])
    decreases n
  {
    if n > 0 {
      MessageFieldsAreTypedFields(schema, n - 1);
      assert DescriptorFields(schema)[..n][..n - 1] == DescriptorFields(schema)[..n - 1];
    }
  }

  // ------------------------------------------------------------- messages

  /** The values a dynamic message field is set to. */
  datatype PbValue = PString(str: GoString) | PInt64(i: int64) | PDouble(bits: uint64) | PBool(b: bool) | PBytes(bytes: seq<byte>)

  type Message = map<GoString, PbValue>

  function KindOfValue(v: PbValue): Kind
  {
    match v
    case PString(_) => KString
    case PInt64(_) => KInt64
    case PDouble(_) => KDouble
    case PBool(_) => KBool
    case PBytes(_) => KBytes
  }

  /** Fields().ByName: the field of that name, if the descriptor has one. */
  function ByName(fields: Descriptor, name: GoString): (r: Option<FieldDescriptor>)
    ensures r.Some? ==> r.value in fields && r.value.name == name
    ensures r.None? ==> forall i :: 0 <= i < |fields| ==> fields[i].name != name
    decreases |fields|
  {
    if fields == [] then None
    else if fields[0].name == name then Some(fields[0])
    else ByName(fields[1..], name)
  }

  /** ByName finds the first field of that name. */
  lemma {:induction false} ByNameAt(fields: Descriptor, name: GoString, i: nat)
    requires i < |fields| && fields[i].name == name && forall j :: 0 <= j < i ==> fields[j].name != name
    ensures ByName(fields, name) == Some(fields[i])
    decreases i
  {
    if i > 0 {
      assert forall j :: 0 <= j < i - 1 ==> fields[1..][j] == fields[j + 1];
      ByNameAt(fields[1..], name, i - 1);
    }
  }

  const PanicKind: GoString := "proto: value of the wrong type for field"

  /** `if field := ByName(name); field != nil { msg.Set(field, v) }`: Set panics when the value's type is not the field's. */
  function SetField(fields: Descriptor, msg: Message, name: GoString, v: PbValue): Outcome<Message>
  {
    match ByName(fields, name)
    case None => Returns(msg)
    case Some(f) => if f.kind == Some(KindOfValue(v)) then Returns(msg[name := v]) else Panics(PanicKind)
  }

  /** Go's `/` on int64: the quotient truncated toward zero. */
  function Quot(a: int, b: int): int
    requires b > 0
  {
    if a >= 0 then a / b else -((-a) / b)
  }

  /** Time.UnixNano() / 1000: the int64 nanosecond count, then microseconds truncated toward zero. */
  function Micros(t: Time): (r: int64)
  {
    Quot(WrapInt64(t), 1000)
  }

  /** Microseconds truncate toward zero: an instant just before the epoch is microsecond 0, not -1. */
  lemma MicrosTruncate()
    ensures Micros(-1) == 0 && Micros(-1001) == -1 && Micros(1999) == 1
  {
  }

  /** A timestamp tag: Seconds*1_000_000 + Nanos/1000 in int64 arithmetic. */
  function TimestampMicros(ts: Timestamp): int64
  {
    WrapInt64(ts.seconds * 1_000_000 + Quot(ts.nanos, 1000))
  }

  /** The value RecordToPB sets for a tag, or none for a variant it does not list. */
  function TagPb(v: Option<TagValue>): Option<PbValue>
  {
    match v
    case Some(BoolValue(b)) => Some(PBool(b))
    case Some(BytesValue(bs)) => Some(PBytes(bs))
    case Some(DoubleValue(bits)) => Some(PDouble(bits))
    case Some(DurationNsValue(ns)) => Some(PInt64(ns))
    case Some(Int64Value(i)) => Some(PInt64(i))
    case Some(StringValue(s)) => Some(PString(s))
    case Some(TimestampValue(ts)) => Some(PInt64(TimestampMicros(ts)))
    case _ => None
  }

  /** The seven fixed assignments, in the order RecordToPB makes them. */
  function FixedSteps(r: BqRecord.Record): seq<(GoString, PbValue)>
  {
    [("application_name", PString(r.appName)), ("application_version", PString(r.appVersion)),
     ("source_instance", PString(r.instance)), ("source_ip", PString(r.address)),
     ("received_at", PInt64(Micros(r.receivedAt))), ("timestamp", PInt64(Micros(r.timestamp))),
     ("correction", PInt64(r.correction))]
  }

  /** The seven fixed values, set one after another on an empty message. */
  function FixedMessage(fields: Descriptor, r: BqRecord.Record): Outcome<Message>
  {
    SetAll(fields, map[], FixedSteps(r))
  }

  /** The assignments applied in order; the first panic ends the conversion. */
  function SetAll(fields: Descriptor, msg: Message, steps: seq<(GoString, PbValue)>): Outcome<Message>
    decreases |steps|
  {
    if steps == [] then Returns(msg)
    else match SetField(fields, msg, steps[0].0, steps[0].1)
      case Panics(p) => Panics(p)
      case Returns(m) => SetAll(fields, m, steps[1..])
  }

  /** The assignments applied with no field missing and no type mismatch. */
  function Applied(msg: Message, steps: seq<(GoString, PbValue)>): Message
    decreases |steps|
  {
    if steps == [] then msg else Applied(msg[steps[0].0 := steps[0].1], steps[1..])
  }

  /** When every assignment names a field of the value's type, none panics and all are made. */
  lemma {:induction false} SetAllApplied(fields: Descriptor, msg: Message, steps: seq<(GoString, PbValue)>)
    requires forall i :: 0 <= i < |steps| ==>
      ByName(fields, steps[i].0).Some? && ByName(fields, steps[i].0).value.kind == Some(KindOfValue(steps[i].1))
    ensures SetAll(fields, msg, steps) == Returns(Applied(msg, steps))
    decreases |steps|
  {
    if steps != [] {
      assert forall i :: 0 <= i < |steps[1..]| ==> steps[1..][i] == steps[i + 1];
      SetAllApplied(fields, msg[steps[0].0 := steps[0].1], steps[1..]);
    }
  }

  /** The tags applied in order after the fixed values. */
  function TagsMessage(fields: Descriptor, msg: Message, tags: seq<Tag>): Outcome<Message>
    decreases |tags|
  {
    if tags == [] then Returns(msg)
    else match TagsMessage(fields, msg, tags[..|tags| - 1])
      case Panics(p) => Panics(p)
      case Returns(m) =>
        var last := tags[|tags| - 1];
        match TagPb(last.value)
        case None => Returns(m)
        case Some(v) => SetField(fields, m, TagFieldName(last.key), v)
  }

  const ErrNoDescriptor: GoString := "message descriptor is not initialized"

  /** RecordToPB as a value: an error without a descriptor, else the message or the panic of a mistyped Set. */
  function ToPB(descriptor: Option<Descriptor>, r: BqRecord.Record): Outcome<Result<Message>>
  {
    match descriptor
    case None => Returns(Err(ErrNoDescriptor))
    case Some(fields) =>
      match FixedMessage(fields, r)
      case Panics(p) => Panics(p)
      case Returns(m) =>
        match TagsMessage(fields, m, r.tags)
        case Panics(p) => Panics(p)
        case Returns(msg) => Returns(Ok(msg))
  }

  /** The descriptor of the default schema: the seven columns numbered 1 to 7. */
  const DefaultFields: Descriptor := [
    FieldDescriptor("application_name", 1, Some(KString)), FieldDescriptor("application_version", 2, Some(KString)),
    FieldDescriptor("source_instance", 3, Some(KString)), FieldDescriptor("source_ip", 4, Some(KString)),
    FieldDescriptor("received_at", 5, Some(KInt64)), FieldDescriptor("timestamp", 6, Some(KInt64)),
    FieldDescriptor("correction", 7, Some(KInt64))]

  lemma DefaultDescriptor()
    ensures MessageFields(DefaultSchema, 7) == DefaultFields
  {
  }

  /** A name of lower-case letters and '_' starting with a letter is an identifier. */
  lemma LowerIdentifier(n: GoString)
    requires |n| > 0 && 'a' <= n[0] <= 'z'
    requires forall k :: 0 <= k < |n| ==> 'a' <= n[k] <= 'z' || n[k] == '_'
    ensures Identifier(n)
  {
  }

  /** The first three default columns are named by identifiers. */
  lemma DefaultIdentifierAppName(k: int)
    requires 0 <= k < 3
    ensures Identifier(DefaultFields[k].name)
  {
    if k == 0 { LowerIdentifier("application_name"); }
    else if k == 1 { LowerIdentifier("application_version"); }
    else { LowerIdentifier("source_instance"); }
  }

  /** The last four default columns are named by identifiers. */
  lemma DefaultIdentifierSource(k: int)
    requires 3 <= k < |DefaultFields|
    ensures Identifier(DefaultFields[k].name)
  {
    if k == 3 { LowerIdentifier("source_ip"); }
    else if k == 4 { LowerIdentifier("received_at"); }
    else if k == 5 { LowerIdentifier("timestamp"); }
    else { LowerIdentifier("correction"); }
  }

  lemma DefaultDistinct()
    ensures forall i, j :: 0 <= i < j < |DefaultFields| ==> DefaultFields[i].name != DefaultFields[j].name
  {
    assert "source_ip"[0] != "timestamp"[0];
  }

  /** The default table's fields have valid, distinct names, so its descriptor is always built. */
  lemma DefaultFieldsValid()
    ensures ValidFields(DefaultFields)
  {
    forall k | 0 <= k < |DefaultFields| ensures Identifier(DefaultFields[k].name) {
      if k < 3 { DefaultIdentifierAppName(k); } else { DefaultIdentifierSource(k); }
    }
    DefaultDistinct();
  }

  /** With the default table's descriptor a record converts, its times in microseconds and its correction in nanoseconds. */
  lemma DefaultRecordToPB(r: BqRecord.Record)
    requires r.tags == []
    ensures ToPB(Some(MessageFields(DefaultSchema, 7)), r) == Returns(Ok(map[
      "application_name" := PString(r.appName), "application_version" := PString(r.appVersion),
      "source_instance" := PString(r.instance), "source_ip" := PString(r.address),
      "received_at" := PInt64(Micros(r.receivedAt)), "timestamp" := PInt64(Micros(r.timestamp)),
      "correction" := PInt64(r.correction)]))
  {
    DefaultDescriptor();
    DefaultSetAll(r);
    AppliedFixed(r);
    var m := Applied(map[], FixedSteps(r));
    assert FixedMessage(DefaultFields, r) == Returns(m);
    assert TagsMessage(DefaultFields, m, r.tags) == Returns(m);
  }

  /** Every fixed value names a default column of its own type, so none of the seven Sets panics. */
  lemma DefaultSetAll(r: BqRecord.Record)
    ensures SetAll(DefaultFields, map[], FixedSteps(r)) == Returns(Applied(map[], FixedSteps(r)))
  {
    var fields := DefaultFields;
    var steps := FixedSteps(r);
    forall i | 0 <= i < |steps|
      ensures ByName(fields, steps[i].0).Some? && ByName(fields, steps[i].0).value.kind == Some(KindOfValue(steps[i].1))
    {
      DefaultByName(r, i);
    }
    SetAllApplied(fields, map[], steps);
  }

  lemma DefaultByName(r: BqRecord.Record, i: nat)
    requires i < 7
    ensures ByName(DefaultFields, FixedSteps(r)[i].0).Some?
    ensures ByName(DefaultFields, FixedSteps(r)[i].0).value.kind == Some(KindOfValue(FixedSteps(r)[i].1))
  {
    var f := DefaultFields;
    var steps := FixedSteps(r);
    assert steps[i].0 == f[i].name;
    assert f[i].kind == Some(KindOfValue(steps[i].1));
    if i == 0 { ByNameAt(f, f[0].name, 0); }
    else if i == 1 { ByNameAt(f, f[1].name, 1); }
    else if i == 2 { ByNameAt(f, f[2].name, 2); }
    else if i == 3 { ByNameAt(f, f[3].name, 3); }
    else if i == 4 { ByNameAt(f, f[4].name, 4); }
    else if i == 5 { ByNameAt(f, f[5].name, 5); }
    else { ByNameAt(f, f[6].name, 6); }
  }

  lemma AppliedFixed(r: BqRecord.Record)
    ensures Applied(map[], FixedSteps(r)) == map[
      "application_name" := PString(r.appName), "application_version" := PString(r.appVersion),
      "source_instance" := PString(r.instance), "source_ip" := PString(r.address),
      "received_at" := PInt64(Micros(r.receivedAt)), "timestamp" := PInt64(Micros(r.timestamp)),
      "correction" := PInt64(r.correction)]
  {
    var s := FixedSteps(r);
    var m1: Message := map["application_name" := PString(r.appName)];
    var m2 := m1["application_version" := PString(r.appVersion)];
    var m3 := m2["source_instance" := PString(r.instance)];
    var m4 := m3["source_ip" := PString(r.address)];
    var m5 := m4["received_at" := PInt64(Micros(r.receivedAt))];
    var m6 := m5["timestamp" := PInt64(Micros(r.timestamp))];
    var m7 := m6["correction" := PInt64(r.correction)];
    assert Applied(m7, s[7..]) == m7;
    assert Applied(m6, s[6..]) == Applied(m7, s[7..]);
    assert Applied(m5, s[5..]) == Applied(m6, s[6..]);
    assert Applied(m4, s[4..]) == Applied(m5, s[5..]);
    assert Applied(m3, s[3..]) == Applied(m4, s[4..]);
    assert Applied(m2, s[2..]) == Applied(m3, s[3..]);
    assert Applied(m1, s[1..]) == Applied(m2, s[2..]);
    assert Applied(map[], s) == Applied(m1, s[1..]);
  }

  /** A tag whose value does not have the type of its column makes the conversion panic. */
  lemma MistypedTagPanics(fields: Descriptor, msg: Message, key: GoString, b: bool)
    requires ByName(fields, TagFieldName(key)) == Some(FieldDescriptor(TagFieldName(key), 8, Some(KInt64)))
    ensures TagsMessage(fields, msg, [Tag(key, Some(BoolValue(b)))]).Panics?
  {
    assert [Tag(key, Some(BoolValue(b)))][..0] == [];
  }

  // ---------------------------------------------------------------- tables

  /**
   * LoadTableMetadata: the table's metadata; for a table that does not exist
   * (404), create it with the default schema and read it back; any other
   * failure is returned.
   */
  method LoadTableMetadata<Row>(ds: Dataset<Row>, table: GoString) returns (r: Result<TableMetadata>)
    modifies ds
    ensures ds.writes == old(ds.writes)
    ensures r.Ok? <==> table !in ds.unavailable
    ensures table !in ds.unavailable && table in old(ds.tables) ==> r == Ok(old(ds.tables)[table]) && ds.tables == old(ds.tables)
    ensures table !in ds.unavailable && table !in old(ds.tables) ==>
      r == Ok(TableMetadata(table, DefaultSchema, 0)) && ds.tables == old(ds.tables)[table := r.value]
    ensures table in ds.unavailable ==> ds.tables == old(ds.tables)
    ensures r.Ok? ==> table in ds.tables && ds.tables[table] == r.value
  {
    var found := ds.Metadata(table);
    match found {
      case Found(meta) =>
        r := Ok(meta);
      case LookupFailed(msg) =>
        r := Err(msg);
      case NotFound =>
        var err := ds.Create(table, DefaultSchema);
        match err {
          case Some(e) =>
            r := Err(e);
            return;
          case None =>
        }
        var again := ds.Metadata(table);
        if !again.Found? {
          r := Err(ErrNotFound);
          return;
        }
        r := Ok(again.meta);
    }
  }

  // ---------------------------------------------------------------- Schema

  class Schema {
    var name: GoString
    var tableMetadata: TableMetadata
    /** None when the last descriptor could not be built. */
    var messageDescriptor: Option<Descriptor>

    constructor(name: GoString, meta: TableMetadata, descriptor: Option<Descriptor>)
      ensures this.name == name && tableMetadata == meta && messageDescriptor == descriptor
    {
      this.name := name;
      tableMetadata := meta;
      messageDescriptor := descriptor;
    }

    /**
     * UpdateIfRequired: nothing when every tag has a column or no column can
     * be added; otherwise the schema extended with the new columns is sent
     * as an update guarded by the etag, and on success the metadata and the
     * descriptor are replaced.
     */
    method UpdateIfRequired<Row>(tags: seq<Tag>, ds: Dataset<Row>) returns (changed: bool, err: Option<string>)
      modifies this, ds
      ensures name == old(name)
      ensures !IsTagMissing(old(tableMetadata.schema), tags) ==> !changed && err == None && unchanged(this) && unchanged(ds)
      ensures NewColumns(old(tableMetadata.schema), tags, ColumnType) == [] ==> !changed && err == None && unchanged(this) && unchanged(ds)
      ensures !changed ==> err == None && unchanged(this) && unchanged(ds)
      ensures changed ==> IsTagMissing(old(tableMetadata.schema), tags)
      ensures changed && tableMetadata != old(tableMetadata) ==>
        tableMetadata.schema == old(tableMetadata.schema) + NewColumns(old(tableMetadata.schema), tags, ColumnType)
      ensures changed && tableMetadata == old(tableMetadata) ==> err.Some? && messageDescriptor == old(messageDescriptor)
      ensures changed && tableMetadata != old(tableMetadata) ==>
        (err.None? <==> ValidFields(MessageFields(tableMetadata.schema, |tableMetadata.schema|)))
        && (err.None? ==> messageDescriptor == Some(MessageFields(tableMetadata.schema, |tableMetadata.schema|)))
        && (err.Some? ==> messageDescriptor == None)
    {
      if !IsTagMissing(tableMetadata.schema, tags) {
        return false, None;
      }
      var original := tableMetadata.schema;
      var schema := AppendMissing(original, tags, ColumnType);
      if |original| == |schema| {
        assert NewColumns(original, tags, ColumnType) == [];
        return false, None;
      }
      var md := ds.Update(name, schema, tableMetadata.etag);
      if md.Err? {
        return true, Some(md.error);
      }
      tableMetadata := md.value;
      var descriptor := ToMessageDescriptor(tableMetadata.schema);
      if descriptor.Ok? {
        messageDescriptor := Some(descriptor.value);
        return true, None;
      }
      messageDescriptor := None;
      return true, Some(descriptor.error);
    }

    /** RecordToPB: the record as a message of the current descriptor. */
    method RecordToPB(r: BqRecord.Record) returns (res: Outcome<Result<Message>>)
      ensures res == ToPB(messageDescriptor, r)
    {
      if messageDescriptor.None? {
        return Returns(Err(ErrNoDescriptor));
      }
      var fields := messageDescriptor.value;
      var fixed := FixedMessage(fields, r);
      if fixed.Panics? {
        return Panics(fixed.message);
      }
      var msg := fixed.value;
      for i := 0 to |r.tags|
        invariant TagsMessage(fields, fixed.value, r.tags[..i]) == Returns(msg)
      {
        assert r.tags[..i + 1][..i] == r.tags[..i];
        var v := TagPb(r.tags[i].value);
        if v.None? {
          continue;
        }
        var step := SetField(fields, msg, TagFieldName(r.tags[i].key), v.value);
        if step.Panics? {
          TagsPanicStays(fields, fixed.value, r.tags, i + 1);
          return Panics(step.message);
        }
        msg := step.value;
      }
      assert r.tags[..|r.tags|] == r.tags;
      return Returns(Ok(msg));
    }

    /** PBDescriptor: every column of the current schema. */
    method PBDescriptor() returns (fields: Descriptor)
      ensures fields == DescriptorFields(tableMetadata.schema)
    {
      var schema := tableMetadata.schema;
      fields := [];
      for ix := 0 to |schema|
        invariant fields == DescriptorFields(schema)[..ix]
      {
        fields := fields + [FieldAt(schema, ix)];
      }
    }
  }

  /** Once the tag loop panics, converting more tags panics the same way. */
  lemma {:induction false} TagsPanicStays(fields: Descriptor, msg: Message, tags: seq<Tag>, n: nat)
    requires n <= |tags| && TagsMessage(fields, msg, tags[..n]).Panics?
    ensures TagsMessage(fields, msg, tags) == TagsMessage(fields, msg, tags[..n])
    decreases |tags| - n
  {
    if n < |tags| {
      assert tags[..n + 1][..n] == tags[..n];
      TagsPanicStays(fields, msg, tags, n + 1);
    } else {
      assert tags[..n] == tags;
    }
  }

  /** NewSchema: the table loaded (or created) and its descriptor built. */
  method NewSchema<Row>(ds: Dataset<Row>, table: GoString) returns (s: Result<Schema>)
    modifies ds
    ensures table in ds.unavailable ==> s.Err?
    ensures s.Ok? ==> fresh(s.value) && s.value.name == table && table in ds.tables && ds.tables[table] == s.value.tableMetadata
    ensures s.Ok? ==> s.value.messageDescriptor == Some(MessageFields(s.value.tableMetadata.schema, |s.value.tableMetadata.schema|))
    ensures table !in ds.unavailable ==>
      (table in ds.tables
       && ds.tables[table] == (if table in old(ds.tables) then old(ds.tables)[table] else TableMetadata(table, DefaultSchema, 0)))
    ensures s.Ok? <==>
      (table !in ds.unavailable && table in ds.tables
       && ValidFields(MessageFields(ds.tables[table].schema, |ds.tables[table].schema|)))
    ensures table !in ds.unavailable && table !in old(ds.tables) ==> s.Ok?
  {
    DefaultDescriptor();
    DefaultFieldsValid();
    var meta := LoadTableMetadata(ds, table);
    if meta.Err? {
      return Err(meta.error);
    }
    var descriptor := ToMessageDescriptor(meta.value.schema);
    if descriptor.Err? {
      return Err(descriptor.error);
    }
    var schema := new Schema(table, meta.value, Some(descriptor.value));
    return Ok(schema);
  }
}
