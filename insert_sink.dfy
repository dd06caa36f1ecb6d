/**
 * The insertAll path of the receiver sinks.  The BigQueryClient of
 * eventkitd-bigquery/bigquery/client.go and the BigQuerySink of the two
 * receiver programs (eventkitd-bigquery/main.go and
 * cmd/eventkitd-sink-bigquery/main.go) hold the same state, a dataset and
 * a cache of table metadata, and run the same table loop: take the cached
 * metadata or load (creating on 404) the table, extend the schema when the
 * first record's tags lack a column, then Put all of the table's records
 * in one insertAll call.  The three differ in the column type a missing
 * tag gets (the `typeOf` of a client) and in what the oldest one does when
 * the table lookup fails for a reason other than 404.
 *
 * What SaveRecord does to the service is stated against a reference
 * definition, `SinkPlan`: the tables whose records are stored, in the
 * map's iteration order, and whether the call returns an error.
 */
module InsertSink {
  import opened Wrappers
  import opened Text
  import opened Pb
  import opened BqNaming
  import opened BqRemote
  import opened BqRecord
  import BqSchema

  /**
   * The column type of a missing tag in the receivers that know the
   * Timestamp variant: the switch has no default, so any other variant (or
   * a tag without a value) gets a column whose type is left empty.
   */
  function SinkColumnType(v: Option<TagValue>): Option<FieldType>
  {
    match ColumnType(v)
    case Some(t) => Some(t)
    case None => Some(Untyped)
  }

  /** The column type of a missing tag in the oldest receiver, whose switch has no Timestamp case either. */
  function LegacyColumnType(v: Option<TagValue>): Option<FieldType>
  {
    if v.Some? && v.value.TimestampValue? then Some(Untyped) else SinkColumnType(v)
  }

  /** The schema UpdateFields sends: the original, then a column per tag missing from it. */
  function Extended(original: Schema, tags: seq<Tag>, typeOf: Option<TagValue> -> Option<FieldType>): Schema
  {
    original + NewColumns(original, tags, typeOf)
  }

  /** The failures of the service a plan depends on. */
  datatype Faults = Faults(unavailable: set<GoString>, insertUnavailable: set<GoString>)

  /**
   * One table of the loop: loading fails for an unavailable table; the
   * schema update the first record's missing tags trigger fails when the
   * extended schema has a column without a type; then one Put of every
   * record of the table.
   */
  function InsertPlan(table: GoString, events: seq<Record>, cached: Option<TableMetadata>, stored: Option<TableMetadata>,
                      faults: Faults, typeOf: Option<TagValue> -> Option<FieldType>): Plan<Record>
  {
    if !Prepared(table, events, cached, stored, faults, typeOf) || table in faults.insertUnavailable then Plan([], true)
    else Plan([Write(table, events, false)], false)
  }

  /** The table loads, and the schema update that the first record's missing tags trigger is accepted. */
  predicate Prepared(table: GoString, events: seq<Record>, cached: Option<TableMetadata>, stored: Option<TableMetadata>,
                     faults: Faults, typeOf: Option<TagValue> -> Option<FieldType>)
  {
    var meta := LoadedMeta(table, cached, stored, faults.unavailable);
    meta.Some? && !(events != [] && IsTagMissing(meta.value.schema, events[0].tags)
                    && !Typed(Extended(meta.value.schema, events[0].tags, typeOf)))
  }

  /** All tables in iteration order; the first failing table ends the call. */
  function SinkPlan(records: map<GoString, seq<Record>>, order: seq<GoString>, cache: map<GoString, TableMetadata>,
                    remote: map<GoString, TableMetadata>, faults: Faults, typeOf: Option<TagValue> -> Option<FieldType>): Plan<Record>
    requires forall j :: 0 <= j < |order| ==> order[j] in records
    decreases |order|
  {
    if order == [] then Plan([], false)
    else
      var p := InsertPlan(order[0], records[order[0]], Cached(cache, order[0]), Cached(remote, order[0]), faults, typeOf);
      if p.failed then p
      else
        var rest := SinkPlan(records, order[1..], cache, remote, faults, typeOf);
        Plan(p.writes + rest.writes, rest.failed)
  }

  /** The plan from the k-th table of the order on: that table's plan, then, unless it fails, the rest. */
  lemma SinkPlanAt(records: map<GoString, seq<Record>>, order: seq<GoString>, k: nat, cache: map<GoString, TableMetadata>,
                   remote: map<GoString, TableMetadata>, faults: Faults, typeOf: Option<TagValue> -> Option<FieldType>)
    requires forall j :: 0 <= j < |order| ==> order[j] in records
    requires k < |order|
    ensures var t := order[k];
      var p := InsertPlan(t, records[t], Cached(cache, t), Cached(remote, t), faults, typeOf);
      var rest := SinkPlan(records, order[k + 1..], cache, remote, faults, typeOf);
      SinkPlan(records, order[k..], cache, remote, faults, typeOf) == if p.failed then p else Plan(p.writes + rest.writes, rest.failed)
  {
    assert order[k..][0] == order[k] && order[k..][1..] == order[k + 1..];
  }

  /** The plan reads the caches only at the tables of the order. */
  lemma {:induction false} SinkPlanFrame(records: map<GoString, seq<Record>>, order: seq<GoString>,
                                         cache: map<GoString, TableMetadata>, remote: map<GoString, TableMetadata>,
                                         cache': map<GoString, TableMetadata>, remote': map<GoString, TableMetadata>,
                                         faults: Faults, typeOf: Option<TagValue> -> Option<FieldType>)
    requires forall j :: 0 <= j < |order| ==> order[j] in records
    requires forall j :: 0 <= j < |order| ==> Cached(cache, order[j]) == Cached(cache', order[j])
    requires forall j :: 0 <= j < |order| ==> Cached(remote, order[j]) == Cached(remote', order[j])
    ensures SinkPlan(records, order, cache, remote, faults, typeOf) == SinkPlan(records, order, cache', remote', faults, typeOf)
    decreases |order|
  {
    if order != [] {
      SinkPlanFrame(records, order[1..], cache, remote, cache', remote', faults, typeOf);
    }
  }

  // ------------------------------------------------------------- properties

  /**
   * The extended schema is accepted exactly when the original is and no
   * missing tag is given a column without a type.
   */
  lemma ExtendedTypedIff(original: Schema, tags: seq<Tag>, typeOf: Option<TagValue> -> Option<FieldType>)
    ensures Typed(Extended(original, tags, typeOf)) <==>
      Typed(original)
      && forall j :: 0 <= j < |tags| && !HasColumn(original, TagFieldName(tags[j].key)) ==> typeOf(tags[j].value) != Some(Untyped)
  {
    var added := NewColumns(original, tags, typeOf);
    var ext := Extended(original, tags, typeOf);
    if Typed(ext) {
      forall i | 0 <= i < |original| ensures original[i].fieldType != Untyped {
        assert ext[i] == original[i];
      }
      forall j | 0 <= j < |tags| && !HasColumn(original, TagFieldName(tags[j].key))
        ensures typeOf(tags[j].value) != Some(Untyped)
      {
        if typeOf(tags[j].value).Some? {
          NewColumnsComplete(original, tags, typeOf, j);
          assert FieldSchema(TagFieldName(tags[j].key), typeOf(tags[j].value).value) in ext;
        }
      }
    } else if Typed(original) {
      var i :| 0 <= i < |ext| && ext[i].fieldType == Untyped;
      assert i >= |original| && added[i - |original|] == ext[i];
      NewColumnsMissing(original, tags, typeOf);
      var c := added[i - |original|];
      var j :| 0 <= j < |tags| && c.name == TagFieldName(tags[j].key) && typeOf(tags[j].value) == Some(c.fieldType);
      assert !HasColumn(original, TagFieldName(tags[j].key));
    }
  }

  /** A missing tag of a variant the receiver does not know gives an untyped column, which the service refuses. */
  lemma UnknownVariantRefused(table: GoString, events: seq<Record>, cached: Option<TableMetadata>,
                              stored: Option<TableMetadata>, faults: Faults, j: nat)
    requires var meta := LoadedMeta(table, cached, stored, faults.unavailable);
      meta.Some? && events != [] && j < |events[0].tags|
      && !HasColumn(meta.value.schema, TagFieldName(events[0].tags[j].key))
      && ColumnType(events[0].tags[j].value).None?
    ensures InsertPlan(table, events, cached, stored, faults, SinkColumnType) == Plan([], true)
  {
    var meta := LoadedMeta(table, cached, stored, faults.unavailable).value;
    IsTagMissingIff(meta.schema, events[0].tags);
    ExtendedTypedIff(meta.schema, events[0].tags, SinkColumnType);
  }

  /** In the oldest receiver a missing Timestamp tag is refused the same way. */
  lemma LegacyTimestampRefused(table: GoString, events: seq<Record>, cached: Option<TableMetadata>,
                               stored: Option<TableMetadata>, faults: Faults, j: nat)
    requires var meta := LoadedMeta(table, cached, stored, faults.unavailable);
      meta.Some? && events != [] && j < |events[0].tags|
      && !HasColumn(meta.value.schema, TagFieldName(events[0].tags[j].key))
      && events[0].tags[j].value.Some? && events[0].tags[j].value.value.TimestampValue?
    ensures InsertPlan(table, events, cached, stored, faults, LegacyColumnType) == Plan([], true)
    ensures var schema := LoadedMeta(table, cached, stored, faults.unavailable).value.schema;
      InsertPlan(table, events, cached, stored, faults, SinkColumnType) != Plan([], true) <==>
        Typed(schema) && table !in faults.insertUnavailable
        && forall k :: 0 <= k < |events[0].tags| && !HasColumn(schema, TagFieldName(events[0].tags[k].key)) ==>
             ColumnType(events[0].tags[k].value).Some?
  {
    var meta := LoadedMeta(table, cached, stored, faults.unavailable).value;
    IsTagMissingIff(meta.schema, events[0].tags);
    ExtendedTypedIff(meta.schema, events[0].tags, LegacyColumnType);
    ExtendedTypedIff(meta.schema, events[0].tags, SinkColumnType);
  }

  /** A table is written whole in one Put or not at all. */
  lemma InsertPlanShape(table: GoString, events: seq<Record>, cached: Option<TableMetadata>, stored: Option<TableMetadata>,
                        faults: Faults, typeOf: Option<TagValue> -> Option<FieldType>)
    ensures var p := InsertPlan(table, events, cached, stored, faults, typeOf);
      (p.failed <==> p.writes == []) && (!p.failed ==> p.writes == [Write(table, events, false)])
  {
  }

  /**
   * SaveRecord stores a prefix of the tables in iteration order, each whole
   * in one insertAll call; it fails exactly when it stops short, and then
   * at the first table whose own plan fails.
   */
  lemma {:induction false} SinkPlanWrites(records: map<GoString, seq<Record>>, order: seq<GoString>, cache: map<GoString, TableMetadata>,
                                          remote: map<GoString, TableMetadata>, faults: Faults, typeOf: Option<TagValue> -> Option<FieldType>)
    requires forall j :: 0 <= j < |order| ==> order[j] in records
    ensures var p := SinkPlan(records, order, cache, remote, faults, typeOf);
      |p.writes| <= |order|
      && (forall j :: 0 <= j < |p.writes| ==> p.writes[j] == Write(order[j], records[order[j]], false))
      && (p.failed <==> |p.writes| < |order|)
      && (p.failed ==> var u := order[|p.writes|];
           InsertPlan(u, records[u], Cached(cache, u), Cached(remote, u), faults, typeOf).failed)
    decreases |order|
  {
    if order != [] {
      var u := order[0];
      var p0 := InsertPlan(u, records[u], Cached(cache, u), Cached(remote, u), faults, typeOf);
      InsertPlanShape(u, records[u], Cached(cache, u), Cached(remote, u), faults, typeOf);
      if !p0.failed {
        var rest := SinkPlan(records, order[1..], cache, remote, faults, typeOf);
        SinkPlanWrites(records, order[1..], cache, remote, faults, typeOf);
        var w := p0.writes + rest.writes;
        forall j | 0 <= j < |w| ensures w[j] == Write(order[j], records[order[j]], false) {
          if j > 0 {
            assert w[j] == rest.writes[j - 1] && order[1..][j - 1] == order[j];
          }
        }
        if rest.failed {
          assert order[1..][|rest.writes|] == order[|w|];
        }
      }
    }
  }

  /** One Put stores its rows in its own table and nothing elsewhere. */
  lemma RowsInSingle(w: Write<Record>, t: GoString)
    ensures RowsIn([w], t) == if w.table == t then w.batch else []
  {
    RowsInAppendOne([], w, t);
    assert [] + [w] == [w];
  }

  /** SaveRecord stores nothing in a table it was not given, even when it fails. */
  lemma {:induction false} SinkPlanOtherRows(records: map<GoString, seq<Record>>, order: seq<GoString>, cache: map<GoString, TableMetadata>,
                                             remote: map<GoString, TableMetadata>, faults: Faults,
                                             typeOf: Option<TagValue> -> Option<FieldType>, t: GoString)
    requires forall j :: 0 <= j < |order| ==> order[j] in records
    requires t !in order
    ensures RowsIn(SinkPlan(records, order, cache, remote, faults, typeOf).writes, t) == []
    decreases |order|
  {
    if order != [] {
      var u := order[0];
      var p0 := InsertPlan(u, records[u], Cached(cache, u), Cached(remote, u), faults, typeOf);
      InsertPlanShape(u, records[u], Cached(cache, u), Cached(remote, u), faults, typeOf);
      if !p0.failed {
        var rest := SinkPlan(records, order[1..], cache, remote, faults, typeOf);
        assert RowsIn(p0.writes, t) == [] by {
          RowsInSingle(Write(u, records[u], false), t);
        }
        assert RowsIn(rest.writes, t) == [] by {
          assert order == [u] + order[1..];
          SinkPlanOtherRows(records, order[1..], cache, remote, faults, typeOf, t);
        }
        RowsInAppend(p0.writes, rest.writes, t);
      }
    }
  }

  /** When SaveRecord succeeds, every table it was given gets exactly its records, in order. */
  lemma {:induction false} SinkPlanOwnRows(records: map<GoString, seq<Record>>, order: seq<GoString>, cache: map<GoString, TableMetadata>,
                                           remote: map<GoString, TableMetadata>, faults: Faults,
                                           typeOf: Option<TagValue> -> Option<FieldType>, t: GoString)
    requires forall j :: 0 <= j < |order| ==> order[j] in records
    requires forall j, k :: 0 <= j < k < |order| ==> order[j] != order[k]
    requires t in order && !SinkPlan(records, order, cache, remote, faults, typeOf).failed
    ensures RowsIn(SinkPlan(records, order, cache, remote, faults, typeOf).writes, t) == records[t]
    decreases |order|
  {
    var u := order[0];
    var p0 := InsertPlan(u, records[u], Cached(cache, u), Cached(remote, u), faults, typeOf);
    var rest := SinkPlan(records, order[1..], cache, remote, faults, typeOf);
    assert !p0.failed && !rest.failed;
    assert p0.writes == [Write(u, records[u], false)] by {
      InsertPlanShape(u, records[u], Cached(cache, u), Cached(remote, u), faults, typeOf);
    }
    if t == u {
      assert RowsIn(p0.writes, t) == records[t] by {
        RowsInSingle(Write(u, records[u], false), t);
      }
      assert RowsIn(rest.writes, t) == [] by {
        forall j | 0 <= j < |order[1..]| ensures order[1..][j] != t {
          assert order[1..][j] == order[j + 1];
        }
        SinkPlanOtherRows(records, order[1..], cache, remote, faults, typeOf, t);
      }
    } else {
      assert RowsIn(p0.writes, t) == [] by {
        RowsInSingle(Write(u, records[u], false), t);
      }
      assert RowsIn(rest.writes, t) == records[t] by {
        assert t in order[1..] by {
          assert order == [u] + order[1..];
        }
        SinkPlanOwnRows(records, order[1..], cache, remote, faults, typeOf, t);
      }
    }
    RowsInAppend(p0.writes, rest.writes, t);
  }

  /** SaveRecord's appends after any earlier ones, table by table. */
  lemma SinkPlanRows(before: seq<Write<Record>>, records: map<GoString, seq<Record>>, order: seq<GoString>,
                     cache: map<GoString, TableMetadata>, remote: map<GoString, TableMetadata>, faults: Faults,
                     typeOf: Option<TagValue> -> Option<FieldType>)
    requires forall j :: 0 <= j < |order| ==> order[j] in records
    requires forall t :: t in records ==> t in order
    requires forall j, k :: 0 <= j < k < |order| ==> order[j] != order[k]
    ensures var p := SinkPlan(records, order, cache, remote, faults, typeOf);
      (forall t :: t !in records ==> RowsIn(before + p.writes, t) == RowsIn(before, t))
      && (!p.failed ==> forall t :: t in records ==> RowsIn(before + p.writes, t) == RowsIn(before, t) + records[t])
  {
    var p := SinkPlan(records, order, cache, remote, faults, typeOf);
    forall t ensures RowsIn(before + p.writes, t) == RowsIn(before, t) + RowsIn(p.writes, t) {
      RowsInAppend(before, p.writes, t);
    }
    forall t | t !in records ensures RowsIn(p.writes, t) == [] {
      assert forall j :: 0 <= j < |order| ==> order[j] != t;
      SinkPlanOtherRows(records, order, cache, remote, faults, typeOf, t);
    }
    if !p.failed {
      forall t | t in records ensures RowsIn(p.writes, t) == records[t] {
        SinkPlanOwnRows(records, order, cache, remote, faults, typeOf, t);
      }
    }
    assert forall s: seq<Record> :: s + [] == s;
  }

  // ------------------------------------------- the oldest receiver's lookup

  /**
   * createOrLoadTableScheme of cmd/eventkitd-sink-bigquery/main.go as
   * written: a lookup error other than 404 leaves the metadata pointer nil,
   * and caching it dereferences nil.
   */
  function LoadedAsWritten(table: GoString, cached: Option<TableMetadata>, stored: Option<TableMetadata>,
                           unavailable: set<GoString>): Outcome<TableMetadata>
  {
    if cached.Some? then Returns(cached.value)
    else if table in unavailable then Panics(ErrNilDereference)
    else Returns(LoadedMeta(table, cached, stored, unavailable).value)
  }

  /** Any lookup failure of an uncached table crashes the oldest receiver, where the newer ones return the error. */
  lemma LookupFailurePanics(table: GoString, stored: Option<TableMetadata>, unavailable: set<GoString>)
    requires table in unavailable
    ensures LoadedAsWritten(table, None, stored, unavailable).Panics?
    ensures LoadedMeta(table, None, stored, unavailable).None?
  {
  }

  /** The corrected lookup never crashes: it fails exactly for an uncached table whose lookup fails, and otherwise agrees. */
  lemma LoadedMetaFails(table: GoString, cached: Option<TableMetadata>, stored: Option<TableMetadata>, unavailable: set<GoString>)
    ensures LoadedMeta(table, cached, stored, unavailable).None? <==> cached.None? && table in unavailable
    ensures LoadedAsWritten(table, cached, stored, unavailable).Returns? ==>
      LoadedMeta(table, cached, stored, unavailable) == Some(LoadedAsWritten(table, cached, stored, unavailable).value)
  {
  }

  // -------------------------------------------------------------- the client

  class InsertClient {
    const ds: Dataset<Record>
    /** The column type a missing tag gets. */
    const typeOf: Option<TagValue> -> Option<FieldType>
    /** Table metadata by table name. */
    var tables: map<GoString, TableMetadata>

    /** The cache agrees with the service and holds only available tables. */
    predicate Valid()
      reads this, ds
    {
      forall t :: t in tables ==> t in ds.tables && tables[t] == ds.tables[t] && t !in ds.unavailable
    }

    function ServiceFaults(): Faults
    {
      Faults(ds.unavailable, ds.insertUnavailable)
    }

    /** NewBigQueryClient (and the sinks' construction): an empty cache. */
    constructor(ds: Dataset<Record>, typeOf: Option<TagValue> -> Option<FieldType>)
      ensures this.ds == ds && this.typeOf == typeOf && tables == map[]
      ensures Valid()
    {
      this.ds := ds;
      this.typeOf := typeOf;
      tables := map[];
    }

    /** createOrLoadTableScheme: a cached entry without a remote call, else the table loaded (or created), cached on success. */
    method CreateOrLoadTableScheme(table: GoString) returns (r: Result<TableMetadata>)
      requires Valid()
      modifies this, ds
      ensures Valid()
      ensures ds.writes == old(ds.writes)
      ensures table in old(tables) ==> r == Ok(old(tables)[table]) && tables == old(tables) && unchanged(ds)
      ensures r.Ok? <==> LoadedMeta(table, Cached(old(tables), table), Cached(old(ds.tables), table), ds.unavailable).Some?
      ensures r.Ok? ==> r.value == LoadedMeta(table, Cached(old(tables), table), Cached(old(ds.tables), table), ds.unavailable).value
      ensures r.Ok? ==> tables == old(tables)[table := r.value] && table in ds.tables && ds.tables[table] == r.value
      ensures r.Err? ==> tables == old(tables)
      ensures forall t :: t != table ==> Cached(ds.tables, t) == Cached(old(ds.tables), t)
    {
      if table in tables {
        return Ok(tables[table]);
      }
      r := BqSchema.LoadTableMetadata(ds, table);
      if r.Ok? {
        tables := tables[table := r.value];
      }
    }

    /**
     * createOrLoadTableScheme of the oldest receiver as written: the same,
     * except that a lookup failing other than with 404 crashes it.
     */
    method CreateOrLoadAsWritten(table: GoString) returns (r: Outcome<TableMetadata>)
      requires Valid()
      modifies this, ds
      ensures r == LoadedAsWritten(table, Cached(old(tables), table), Cached(old(ds.tables), table), ds.unavailable)
      ensures r.Returns? ==> Valid() && tables == old(tables)[table := r.value] && table in ds.tables && ds.tables[table] == r.value
      ensures r.Panics? ==> tables == old(tables)
      ensures ds.writes == old(ds.writes)
      ensures table in old(tables) ==> ds.calls == old(ds.calls) && ds.tables == old(ds.tables)
      ensures forall t :: t != table ==> Cached(ds.tables, t) == Cached(old(ds.tables), t)
    {
      if table in tables {
        return Returns(tables[table]);
      }
      var found := ds.Metadata(table);
      var meta: TableMetadata;
      match found {
        case Found(m) =>
          meta := m;
        case LookupFailed(_) =>
          return Panics(ErrNilDereference);
        case NotFound =>
          // Go returns the error of Create or of the second lookup here.
          // The simulated dataset never fails either once the first lookup
          // said 404 (a table outside `unavailable` can be created and is
          // then found), so these two branches are dead; the value they
          // return is never observed.
          var err := ds.Create(table, DefaultSchema);
          if err.Some? {
            return Panics(ErrNilDereference);
          }
          var again := ds.Metadata(table);
          if !again.Found? {
            return Panics(ErrNilDereference);
          }
          meta := again.meta;
      }
      tables := tables[table := meta];
      r := Returns(meta);
    }

    /**
     * UpdateFields / bigqueryUpdate as written: the schema extended with a
     * column per tag missing from the original schema, sent as an update
     * guarded by the etag to the table named by metadata.name, the table's
     * friendly name; on success the metadata is cached under that name.  For
     * a table whose friendly name is not its ID this is another table or
     * none (see FriendlyNameMissesTable); PrepareTable uses UpdateTable
     * instead.
     */
    method UpdateFields(metadata: TableMetadata, tags: seq<Tag>) returns (err: Option<string>)
      requires Valid()
      modifies this, ds
      ensures Valid()
      ensures ds.writes == old(ds.writes) && ds.calls == old(ds.calls) + 1
      ensures err.None? <==> UpdateAccepted(metadata.name, metadata.etag, Extended(metadata.schema, tags, typeOf),
        old(ds.tables), ds.unavailable)
      ensures err.None? ==>
        var md := TableMetadata(old(ds.tables)[metadata.name].name, Extended(metadata.schema, tags, typeOf), metadata.etag + 1);
        ds.tables == old(ds.tables)[metadata.name := md] && tables == old(tables)[metadata.name := md]
      ensures err.Some? ==> ds.tables == old(ds.tables) && tables == old(tables)
    {
      var schema := AppendMissing(metadata.schema, tags, typeOf);
      var md := ds.Update(metadata.name, schema, metadata.etag);
      if md.Err? {
        return Some(md.error);
      }
      tables := tables[metadata.name := md.value];
      return None;
    }

    /** UpdateFields as evidently intended: the same update addressed to the table by its ID, and cached under that ID. */
    method UpdateTable(table: GoString, metadata: TableMetadata, tags: seq<Tag>) returns (err: Option<string>)
      requires Valid()
      modifies this, ds
      ensures Valid()
      ensures ds.writes == old(ds.writes) && ds.calls == old(ds.calls) + 1
      ensures err.None? <==> UpdateAccepted(table, metadata.etag, Extended(metadata.schema, tags, typeOf),
        old(ds.tables), ds.unavailable)
      ensures err.None? ==>
        var md := TableMetadata(old(ds.tables)[table].name, Extended(metadata.schema, tags, typeOf), metadata.etag + 1);
        ds.tables == old(ds.tables)[table := md] && tables == old(tables)[table := md]
      ensures err.Some? ==> ds.tables == old(ds.tables) && tables == old(tables)
    {
      var schema := AppendMissing(metadata.schema, tags, typeOf);
      var md := ds.Update(table, schema, metadata.etag);
      if md.Err? {
        return Some(md.error);
      }
      tables := tables[table := md.value];
      return None;
    }

    /** The metadata of one table of SaveRecord, extended (by table ID, see UpdateTable) for the first record's tags when they lack a column. */
    method PrepareTable(table: GoString, events: seq<Record>) returns (err: Option<string>)
      requires Valid()
      modifies this, ds
      ensures Valid() && ds.writes == old(ds.writes)
      ensures err.None? <==> Prepared(table, events, Cached(old(tables), table), Cached(old(ds.tables), table), ServiceFaults(), typeOf)
      ensures err.None? ==> table in ds.tables
      ensures forall t :: t != table ==> Cached(tables, t) == Cached(old(tables), t)
      ensures forall t :: t != table ==> Cached(ds.tables, t) == Cached(old(ds.tables), t)
    {
      // SaveRecord's own look into the cache answers as createOrLoadTableScheme's does
      var r := CreateOrLoadTableScheme(table);
      if r.Err? {
        return Some(r.error);
      }
      var meta := r.value;
      assert table !in ds.unavailable;
      if |events| > 0 && IsTagMissing(meta.schema, events[0].tags) {
        err := UpdateTable(table, meta, events[0].tags);
      } else {
        err := None;
      }
    }

    /** One table of SaveRecord: the metadata as PrepareTable leaves it, then one Put of all the table's records. */
    method SaveTable(table: GoString, events: seq<Record>) returns (err: Option<string>)
      requires Valid()
      modifies this, ds
      ensures Valid()
      ensures var p := InsertPlan(table, events, Cached(old(tables), table), Cached(old(ds.tables), table), ServiceFaults(), typeOf);
        ds.writes == old(ds.writes) + p.writes && (err.None? <==> !p.failed)
      ensures forall t :: t != table ==> Cached(tables, t) == Cached(old(tables), t)
      ensures forall t :: t != table ==> Cached(ds.tables, t) == Cached(old(ds.tables), t)
    {
      err := PrepareTable(table, events);
      if err.Some? {
        return;
      }
      err := ds.Put(table, events);
    }

    /**
     * One turn of SaveRecord's table loop.  Before it, the writes so far
     * (`done`) followed by the plan of the tables from the k-th on make up
     * the plan of the whole call; the turn saves the k-th table, and then
     * either the call's plan has failed with exactly the writes made, or
     * the same holds from the next table on.
     */
    method SaveNext(records: map<GoString, seq<Record>>, order: seq<GoString>, k: nat, ghost faults: Faults,
                    ghost whole: Plan<Record>, ghost before: seq<Write<Record>>, ghost done: seq<Write<Record>>)
      returns (err: Option<string>, ghost done': seq<Write<Record>>)
      requires Valid() && faults == ServiceFaults()
      requires forall j :: 0 <= j < |order| ==> order[j] in records
      requires forall j, i :: 0 <= j < i < |order| ==> order[j] != order[i]
      requires k < |order|
      requires ds.writes == before + done
      requires whole == Plan(done + SinkPlan(records, order[k..], tables, ds.tables, faults, typeOf).writes,
        SinkPlan(records, order[k..], tables, ds.tables, faults, typeOf).failed)
      modifies this, ds
      ensures Valid()
      ensures ds.writes == before + done'
      ensures err.Some? ==> whole == Plan(done', true)
      ensures err.None? ==> whole == Plan(done' + SinkPlan(records, order[k + 1..], tables, ds.tables, faults, typeOf).writes,
        SinkPlan(records, order[k + 1..], tables, ds.tables, faults, typeOf).failed)
    {
      var t := order[k];
      ghost var cache, remote := tables, ds.tables;
      ghost var step := InsertPlan(t, records[t], Cached(cache, t), Cached(remote, t), faults, typeOf);
      ghost var rest := SinkPlan(records, order[k + 1..], cache, remote, faults, typeOf);
      SinkPlanAt(records, order, k, cache, remote, faults, typeOf);
      err := SaveTable(t, records[t]);
      done' := done + step.writes;
      assert before + done + step.writes == before + done';
      if err.None? {
        var later := order[k + 1..];
        forall j | 0 <= j < |later|
          ensures Cached(cache, later[j]) == Cached(tables, later[j])
          ensures Cached(remote, later[j]) == Cached(ds.tables, later[j])
        {
          assert later[j] == order[k + 1 + j] != t;
        }
        SinkPlanFrame(records, later, cache, remote, tables, ds.tables, faults, typeOf);
        assert done + step.writes + rest.writes == done + (step.writes + rest.writes);
      }
    }

    /** SaveRecord (and the table loop of the sinks' Receive): every table in iteration order, the first error ending it. */
    method SaveRecord(records: map<GoString, seq<Record>>, order: seq<GoString>) returns (err: Option<string>)
      requires Valid()
      requires forall j :: 0 <= j < |order| ==> order[j] in records
      requires forall j, k :: 0 <= j < k < |order| ==> order[j] != order[k]
      modifies this, ds
      ensures Valid()
      ensures var p := SinkPlan(records, order, old(tables), old(ds.tables), ServiceFaults(), typeOf);
        ds.writes == old(ds.writes) + p.writes && (err.None? <==> !p.failed)
    {
      ghost var faults := ServiceFaults();
      ghost var whole := SinkPlan(records, order, tables, ds.tables, faults, typeOf);
      ghost var before := ds.writes;
      ghost var done: seq<Write<Record>> := [];
      assert before + done == before;
      for k := 0 to |order|
        invariant Valid()
        invariant ds.writes == before + done
        invariant whole == Plan(done + SinkPlan(records, order[k..], tables, ds.tables, faults, typeOf).writes,
          SinkPlan(records, order[k..], tables, ds.tables, faults, typeOf).failed)
      {
        err, done := SaveNext(records, order, k, faults, whole, before, done);
        if err.Some? {
          return;
        }
      }
      assert order[|order|..] == [];
      assert done + [] == done;
      return None;
    }
  }
}
