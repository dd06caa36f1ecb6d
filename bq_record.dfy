/**
 * A BigQuery row of the pipeline (the Record of bigquery/record.go, of
 * eventkitd-bigquery/bigquery/record.go and of the two sink programs) and
 * its projections: Save, the column/value map the inserter uploads, and
 * ToJSON, the document the Storage Write API receives.  Both start from the
 * seven fixed columns and then assign one column per tag of a known
 * variant, in tag order, so a later tag with the same column wins.
 */
module BqRecord {
  import opened Wrappers
  import opened Text
  import opened Binary
  import opened Clock
  import opened Pb
  import opened PbUtils
  import opened BqNaming

  /** Record: application, source (the address already rendered), times, correction and tags. */
  datatype Record = Record(
    appName: GoString,
    appVersion: GoString,
    instance: GoString,
    address: GoString,
    receivedAt: Time,
    timestamp: Time,
    correction: Duration,
    tags: seq<Tag>)

  /** bigquery.Value as Save fills it. */
  datatype Value =
    | StringV(str: GoString)
    | BytesV(bytes: seq<byte>)
    | FloatV(bits: uint64)
    | IntV(i: int64)
    | BoolV(b: bool)
    | TimeV(t: Time)
    | DurationV(d: Duration)

  // ----------------------------------------------------------- tag columns

  /** The tags applied in order over a row: each known variant assigns its column, the last assignment stays. */
  function WithTags<V>(row: map<GoString, V>, tags: seq<Tag>, cell: Option<TagValue> -> Option<V>): map<GoString, V>
    decreases |tags|
  {
    if tags == [] then row
    else
      var last := tags[|tags| - 1];
      var before := WithTags(row, tags[..|tags| - 1], cell);
      match cell(last.value)
      case Some(v) => before[TagFieldName(last.key) := v]
      case None => before
  }

  /** The tag loop of Save and ToJSON. */
  method FillTags<V>(row: map<GoString, V>, tags: seq<Tag>, cell: Option<TagValue> -> Option<V>) returns (fields: map<GoString, V>)
    ensures fields == WithTags(row, tags, cell)
  {
    fields := row;
    for i := 0 to |tags|
      invariant fields == WithTags(row, tags[..i], cell)
    {
      assert tags[..i + 1][..i] == tags[..i];
      var field := TagFieldName(tags[i].key);
      match cell(tags[i].value) {
        case Some(v) => fields := fields[field := v];
        case None =>
      }
    }
    assert tags[..|tags|] == tags;
  }

  /** A column is present after the tags exactly when it was before or some tag of a known variant names it. */
  lemma {:induction false} WithTagsKeys<V>(row: map<GoString, V>, tags: seq<Tag>, cell: Option<TagValue> -> Option<V>, k: GoString)
    ensures k in WithTags(row, tags, cell) <==>
      k in row || exists j :: 0 <= j < |tags| && TagFieldName(tags[j].key) == k && cell(tags[j].value).Some?
    decreases |tags|
  {
    if tags != [] {
      var init := tags[..|tags| - 1];
      WithTagsKeys(row, init, cell, k);
      assert forall j :: 0 <= j < |init| ==> init[j] == tags[j];
    }
  }

  /** A column no tag names keeps its value: tags never touch the fixed columns. */
  lemma {:induction false} WithTagsKeeps<V>(row: map<GoString, V>, tags: seq<Tag>, cell: Option<TagValue> -> Option<V>, k: GoString)
    requires k in row && forall j :: 0 <= j < |tags| ==> TagFieldName(tags[j].key) != k
    ensures k in WithTags(row, tags, cell) && WithTags(row, tags, cell)[k] == row[k]
    decreases |tags|
  {
    if tags != [] {
      WithTagsKeeps(row, tags[..|tags| - 1], cell, k);
    }
  }

  /** The value of a tag column is the value of the LAST tag of a known variant naming it. */
  lemma {:induction false} WithTagsLastWins<V>(row: map<GoString, V>, tags: seq<Tag>, cell: Option<TagValue> -> Option<V>, j: nat)
    requires j < |tags| && cell(tags[j].value).Some?
    requires forall l :: j < l < |tags| && TagFieldName(tags[l].key) == TagFieldName(tags[j].key) ==> cell(tags[l].value).None?
    ensures TagFieldName(tags[j].key) in WithTags(row, tags, cell)
    ensures WithTags(row, tags, cell)[TagFieldName(tags[j].key)] == cell(tags[j].value).value
    decreases |tags|
  {
    if j < |tags| - 1 {
      var init := tags[..|tags| - 1];
      assert init[j] == tags[j];
      forall l | j < l < |init| && TagFieldName(init[l].key) == TagFieldName(init[j].key)
        ensures cell(init[l].value).None?
      {
        assert init[l] == tags[l];
      }
      WithTagsLastWins(row, init, cell, j);
    }
  }

  // ------------------------------------------------------------------ Save

  /** The value Save stores for a tag; None for a variant the switch does not list (and for no value). */
  function SaveCell(v: Option<TagValue>): (r: Option<Value>)
    ensures r.Some? <==> ColumnType(v).Some?
  {
    match v
    case Some(BoolValue(b)) => Some(BoolV(b))
    case Some(BytesValue(bs)) => Some(BytesV(bs))
    case Some(DoubleValue(bits)) => Some(FloatV(bits))
    case Some(DurationNsValue(ns)) => Some(IntV(ns))
    case Some(Int64Value(i)) => Some(IntV(i))
    case Some(StringValue(s)) => Some(StringV(s))
    case Some(TimestampValue(ts)) => Some(TimeV(AsTime(ts)))
    case _ => None
  }

  /** The cell of cmd/eventkitd-sink-bigquery, whose switch has no Timestamp case. */
  function SaveCellNoTimestamp(v: Option<TagValue>): (r: Option<Value>)
    ensures r.Some? <==> SaveCell(v).Some? && !(v.Some? && v.value.TimestampValue?)
    ensures r.Some? ==> r == SaveCell(v)
  {
    match v
    case Some(TimestampValue(_)) => None
    case _ => SaveCell(v)
  }

  /** The seven fixed columns of Save. */
  function FixedRow(r: Record): (row: map<GoString, Value>)
    ensures row.Keys == set c | c in FixedColumns
  {
    map["application_name" := StringV(r.appName), "application_version" := StringV(r.appVersion),
        "source_instance" := StringV(r.instance), "source_ip" := StringV(r.address),
        "received_at" := TimeV(r.receivedAt), "timestamp" := TimeV(r.timestamp),
        "correction" := DurationV(r.correction)]
  }

  /** Save's row: the fixed columns, then the tags. */
  function Row(r: Record, cell: Option<TagValue> -> Option<Value>): map<GoString, Value>
  {
    WithTags(FixedRow(r), r.tags, cell)
  }

  /** Record.Save: the row, an empty insert id and no error. */
  method Save(r: Record, cell: Option<TagValue> -> Option<Value>) returns (fields: map<GoString, Value>, insertId: GoString, err: Option<GoString>)
    ensures fields == Row(r, cell) && insertId == [] && err == None
  {
    fields := map[];
    fields := fields["application_name" := StringV(r.appName)];
    fields := fields["application_version" := StringV(r.appVersion)];
    fields := fields["source_instance" := StringV(r.instance)];
    fields := fields["source_ip" := StringV(r.address)];
    fields := fields["received_at" := TimeV(r.receivedAt)];
    fields := fields["timestamp" := TimeV(r.timestamp)];
    fields := fields["correction" := DurationV(r.correction)];
    assert fields == FixedRow(r);
    fields := FillTags(fields, r.tags, cell);
    insertId := [];
    err := None;
  }

  /** The fixed columns of a row are the record's own values, whatever its tags. */
  lemma RowFixed(r: Record, cell: Option<TagValue> -> Option<Value>, c: GoString)
    requires c in FixedColumns
    ensures c in Row(r, cell) && Row(r, cell)[c] == FixedRow(r)[c]
  {
    forall j | 0 <= j < |r.tags| ensures TagFieldName(r.tags[j].key) != c {
      TagColumnNotFixed(r.tags[j].key);
    }
    WithTagsKeeps(FixedRow(r), r.tags, cell, c);
  }

  /** The columns of a row: the seven fixed ones and one per tag of a known variant. */
  lemma RowColumns(r: Record, cell: Option<TagValue> -> Option<Value>, c: GoString)
    ensures c in Row(r, cell) <==>
      c in FixedColumns || exists j :: 0 <= j < |r.tags| && TagFieldName(r.tags[j].key) == c && cell(r.tags[j].value).Some?
  {
    WithTagsKeys(FixedRow(r), r.tags, cell, c);
  }

  /** The cmd sink drops Timestamp tags from its rows: a record whose only tag is a timestamp has just the fixed columns. */
  lemma TimestampTagDropped(r: Record, key: GoString, ts: Timestamp)
    requires r.tags == [Tag(key, Some(TimestampValue(ts)))]
    ensures Row(r, SaveCellNoTimestamp) == FixedRow(r)
    ensures Row(r, SaveCell) == FixedRow(r)[TagFieldName(key) := TimeV(AsTime(ts))]
  {
    assert r.tags[..|r.tags| - 1] == [];
    assert WithTags(FixedRow(r), r.tags[..|r.tags| - 1], SaveCellNoTimestamp) == FixedRow(r);
    assert WithTags(FixedRow(r), r.tags[..|r.tags| - 1], SaveCell) == FixedRow(r);
  }

  // ---------------------------------------------------------------- ToJSON

  /** The JSON values ToJSON builds. */
  datatype JsonValue =
    | JString(str: GoString)
    | JInt(i: int64)
    | JBool(b: bool)
    | JBytes(bytes: seq<byte>)
    | JFloat(bits: uint64)

  /** A float64 encoding that is neither NaN nor an infinity (exponent bits not all set). */
  predicate Finite(bits: uint64)
  {
    (bits / 0x10_0000_0000_0000) % 0x800 != 0x7FF
  }

  const ErrUnsupportedFloat: GoString := "json: unsupported value"

  /** The value ToJSON stores for a tag; instants go through the RFC 3339 rendering `format`. */
  function JsonCell(v: Option<TagValue>, format: Time -> GoString): (r: Option<JsonValue>)
    ensures r.Some? <==> ColumnType(v).Some?
  {
    match v
    case Some(BoolValue(b)) => Some(JBool(b))
    case Some(BytesValue(bs)) => Some(JBytes(bs))
    case Some(DoubleValue(bits)) => Some(JFloat(bits))
    case Some(DurationNsValue(ns)) => Some(JInt(ns))
    case Some(Int64Value(i)) => Some(JInt(i))
    case Some(StringValue(s)) => Some(JString(s))
    case Some(TimestampValue(ts)) => Some(JString(format(AsTime(ts))))
    case _ => None
  }

  /** JsonCell with the rendering fixed, as the tag loop applies it. */
  function JsonCells(format: Time -> GoString): Option<TagValue> -> Option<JsonValue>
  {
    v => JsonCell(v, format)
  }

  function FixedDocument(r: Record, format: Time -> GoString): (doc: map<GoString, JsonValue>)
    ensures doc.Keys == set c | c in FixedColumns
  {
    map["application_name" := JString(r.appName), "application_version" := JString(r.appVersion),
        "source_instance" := JString(r.instance), "source_ip" := JString(r.address),
        "received_at" := JString(format(r.receivedAt)), "timestamp" := JString(format(r.timestamp)),
        "correction" := JInt(r.correction)]
  }

  /** The document of a record: fixed keys, correction in integer nanoseconds, then the tags. */
  function Document(r: Record, format: Time -> GoString): map<GoString, JsonValue>
  {
    WithTags(FixedDocument(r, format), r.tags, JsonCells(format))
  }

  /** json.Marshal refuses a document holding a NaN or infinite float. */
  predicate Marshalable(doc: map<GoString, JsonValue>)
  {
    forall k :: k in doc && doc[k].JFloat? ==> Finite(doc[k].bits)
  }

  /** Record.ToJSON: the document, or the marshalling error. */
  method ToJSON(r: Record, format: Time -> GoString) returns (res: Result<map<GoString, JsonValue>>)
    ensures res.Ok? <==> Marshalable(Document(r, format))
    ensures res.Ok? ==> res.value == Document(r, format)
  {
    var fields: map<GoString, JsonValue> := map[];
    fields := fields["application_name" := JString(r.appName)];
    fields := fields["application_version" := JString(r.appVersion)];
    fields := fields["source_instance" := JString(r.instance)];
    fields := fields["source_ip" := JString(r.address)];
    fields := fields["received_at" := JString(format(r.receivedAt))];
    fields := fields["timestamp" := JString(format(r.timestamp))];
    fields := fields["correction" := JInt(r.correction)];
    assert fields == FixedDocument(r, format);
    fields := FillTags(fields, r.tags, JsonCells(format));
    if Marshalable(fields) {
      res := Ok(fields);
    } else {
      res := Err(ErrUnsupportedFloat);
    }
  }

  /** A record without float tags always marshals: the fixed keys hold no floats. */
  lemma {:induction false} NoFloatsMarshal(r: Record, format: Time -> GoString)
    requires forall j :: 0 <= j < |r.tags| ==> !(r.tags[j].value.Some? && r.tags[j].value.value.DoubleValue?)
    ensures Marshalable(Document(r, format))
  {
    forall k | k in Document(r, format) ensures !Document(r, format)[k].JFloat? {
      NoFloatsStep(FixedDocument(r, format), r.tags, format, k);
    }
  }

  lemma {:induction false} NoFloatsStep(doc: map<GoString, JsonValue>, tags: seq<Tag>, format: Time -> GoString, k: GoString)
    requires forall c :: c in doc ==> !doc[c].JFloat?
    requires forall j :: 0 <= j < |tags| ==> !(tags[j].value.Some? && tags[j].value.value.DoubleValue?)
    requires k in WithTags(doc, tags, JsonCells(format))
    ensures !WithTags(doc, tags, JsonCells(format))[k].JFloat?
    decreases |tags|
  {
    if tags != [] {
      var init := tags[..|tags| - 1];
      var before := WithTags(doc, init, JsonCells(format));
      var last := tags[|tags| - 1];
      if JsonCell(last.value, format).Some? && TagFieldName(last.key) == k {
      } else {
        NoFloatsStep(doc, init, format, k);
      }
    }
  }

  /** A NaN tag fails the document, but a later tag of the same key replaces it and the document marshals. */
  lemma NaNOverwritten(r: Record, format: Time -> GoString)
    requires r.tags == [Tag("x", Some(DoubleValue(0x7FF8_0000_0000_0001))), Tag("x", Some(Int64Value(1)))]
    ensures Marshalable(Document(r, format))
    ensures !Marshalable(WithTags(FixedDocument(r, format), r.tags[..1], JsonCells(format)))
  {
    var fixed := FixedDocument(r, format);
    var first := WithTags(fixed, r.tags[..1], JsonCells(format));
    var t1 := r.tags[..1];
    assert t1[..|t1| - 1] == [] && t1[|t1| - 1] == r.tags[0];
    assert WithTags(fixed, t1[..|t1| - 1], JsonCells(format)) == fixed;
    assert JsonCells(format)(r.tags[0].value) == Some(JFloat(0x7FF8_0000_0000_0001));
    assert first == fixed[TagFieldName("x") := JFloat(0x7FF8_0000_0000_0001)];
    assert 0x7FF8_0000_0000_0001 / 0x10_0000_0000_0000 == 0x7FF;
    assert TagFieldName("x") in first && first[TagFieldName("x")].JFloat? && !Finite(first[TagFieldName("x")].bits);
    assert r.tags[..1] == r.tags[..|r.tags| - 1];
    var doc := Document(r, format);
    assert doc == first[TagFieldName("x") := JInt(1)];
    forall k | k in doc ensures !doc[k].JFloat? {
      if k != TagFieldName("x") {
        assert k in fixed && doc[k] == fixed[k];
      }
    }
  }
}
