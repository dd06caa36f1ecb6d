/**
 * The BigQuery dataset the sinks talk to, as the state the sinks can
 * observe: the tables with their schemas and etags, the rows stored per
 * table, and the tables whose calls fail.  Every call counts in `calls`,
 * so that a cache hit can be stated as "no remote call".  The service is
 * foreign code; this class stands in for it with the behaviour the sinks
 * rely on (404 for a missing table, an etag check on update, rows appended
 * in the order given).  Every successful append is also logged with the
 * API that made it, so that the order of batches and the fallback from the
 * Storage Write API to the insertAll API can be stated.
 */
module BqRemote {
  import opened Wrappers
  import opened Text
  import opened BqNaming

  datatype TableMetadata = TableMetadata(name: GoString, schema: Schema, etag: nat)

  /** Table.Metadata: the table, a googleapi 404, or any other failure. */
  datatype Lookup = Found(meta: TableMetadata) | NotFound | LookupFailed(message: GoString)

  const ErrUnavailable: GoString := "bigquery: service unavailable"
  const ErrExists: GoString := "bigquery: table already exists"
  const ErrNotFound: GoString := "bigquery: table not found"
  const ErrETag: GoString := "bigquery: precondition failed (etag)"
  const ErrUntyped: GoString := "bigquery: field has no type"

  /** One successful append: the table, the rows, and whether the Storage Write API (true) or insertAll (false) took them. */
  datatype Write<Row> = Write(table: GoString, batch: seq<Row>, streamed: bool)

  /** The rows a log of appends has stored in one table, in the order appended. */
  function RowsIn<Row>(writes: seq<Write<Row>>, table: GoString): seq<Row>
  {
    if writes == [] then []
    else RowsIn(writes[..|writes| - 1], table) + (if writes[|writes| - 1].table == table then writes[|writes| - 1].batch else [])
  }

  /** Appending to the log appends each table's rows. */
  lemma {:induction false} RowsInAppend<Row>(a: seq<Write<Row>>, b: seq<Write<Row>>, table: GoString)
    ensures RowsIn(a + b, table) == RowsIn(a, table) + RowsIn(b, table)
    decreases |b|
  {
    if b == [] {
      assert a + b == a;
    } else {
      var last := b[|b| - 1];
      var extra := if last.table == table then last.batch else [];
      assert (a + b)[..|a + b| - 1] == a + b[..|b| - 1];
      RowsInAppend(a, b[..|b| - 1], table);
      calc {
        RowsIn(a + b, table);
        RowsIn(a + b[..|b| - 1], table) + extra;
        RowsIn(a, table) + RowsIn(b[..|b| - 1], table) + extra;
        RowsIn(a, table) + RowsIn(b, table);
      }
    }
  }

  /** One successful append adds its batch to its own table and nothing to any other. */
  lemma RowsInAppendOne<Row>(writes: seq<Write<Row>>, w: Write<Row>, table: GoString)
    ensures RowsIn(writes + [w], table) == RowsIn(writes, table) + (if w.table == table then w.batch else [])
  {
    assert (writes + [w])[..|writes + [w]| - 1] == writes;
  }

  /** The appends a call makes, in order, and whether it returns an error. */
  datatype Plan<Row> = Plan(writes: seq<Write<Row>>, failed: bool)

  /** The cache entry of a table, if any. */
  function Cached(m: map<GoString, TableMetadata>, k: GoString): Option<TableMetadata>
  {
    if k in m then Some(m[k]) else None
  }

  /**
   * The metadata createOrLoadTableScheme yields: the cached entry, else none
   * for a table whose lookup fails, else the stored table, else the table
   * it creates with the default schema.
   */
  function LoadedMeta(table: GoString, cached: Option<TableMetadata>, stored: Option<TableMetadata>,
                      unavailable: set<GoString>): Option<TableMetadata>
  {
    if cached.Some? then cached
    else if table in unavailable then None
    else if stored.Some? then stored
    else Some(TableMetadata(table, DefaultSchema, 0))
  }

  /** A schema the service accepts: every column has a type. */
  predicate Typed(schema: Schema)
  {
    forall i :: 0 <= i < |schema| ==> schema[i].fieldType != Untyped
  }

  /** Whether Table(target).Update with this etag and schema is accepted. */
  predicate UpdateAccepted(target: GoString, etag: nat, schema: Schema, tables: map<GoString, TableMetadata>,
                           unavailable: set<GoString>)
  {
    target !in unavailable && target in tables && tables[target].etag == etag && Typed(schema)
  }

  /**
   * A table made outside the sinks has BigQuery's default, empty friendly
   * name.  A schema update addressed by that name, as the sinks write it,
   * names no table and is refused; the same update addressed by the
   * table's ID is accepted.
   */
  lemma FriendlyNameMissesTable(schema: Schema)
    requires Typed(schema)
    ensures var remote := map["events" := TableMetadata("", schema, 3)];
      !UpdateAccepted(remote["events"].name, remote["events"].etag, schema, remote, {})
      && UpdateAccepted("events", remote["events"].etag, schema, remote, {})
  {
    var remote := map["events" := TableMetadata("", schema, 3)];
    assert "" !in remote;
  }

  class Dataset<Row> {
    var tables: map<GoString, TableMetadata>
    var writes: seq<Write<Row>>
    var calls: nat
    /** Tables every call about which fails with an error other than 404. */
    const unavailable: set<GoString>
    /** Tables the Storage Write API refuses (streams and appends). */
    const writerUnavailable: set<GoString>
    /** Tables whose insertAll calls fail. */
    const insertUnavailable: set<GoString>

    constructor(tables: map<GoString, TableMetadata>, unavailable: set<GoString>, writerUnavailable: set<GoString>,
                insertUnavailable: set<GoString>)
      ensures this.tables == tables && this.unavailable == unavailable
      ensures this.writerUnavailable == writerUnavailable && this.insertUnavailable == insertUnavailable
      ensures writes == [] && calls == 0
    {
      this.tables := tables;
      this.unavailable := unavailable;
      this.writerUnavailable := writerUnavailable;
      this.insertUnavailable := insertUnavailable;
      writes := [];
      calls := 0;
    }

    /** The rows stored in a table so far. */
    function RowsOf(table: GoString): seq<Row>
      reads this
    {
      RowsIn(writes, table)
    }

    /** Table(table).Metadata. */
    method Metadata(table: GoString) returns (r: Lookup)
      modifies this
      ensures calls == old(calls) + 1
      ensures tables == old(tables) && writes == old(writes)
      ensures table in unavailable ==> r == LookupFailed(ErrUnavailable)
      ensures table !in unavailable && table in tables ==> r == Found(tables[table])
      ensures table !in unavailable && table !in tables ==> r == NotFound
    {
      calls := calls + 1;
      if table in unavailable {
        r := LookupFailed(ErrUnavailable);
      } else if table in tables {
        r := Found(tables[table]);
      } else {
        r := NotFound;
      }
    }

    /** Table(table).Create with the given schema; the service assigns the first etag. */
    method Create(table: GoString, schema: Schema) returns (err: Option<GoString>)
      modifies this
      ensures calls == old(calls) + 1
      ensures writes == old(writes)
      ensures table in unavailable ==> err == Some(ErrUnavailable) && tables == old(tables)
      ensures table !in unavailable && table in old(tables) ==> err == Some(ErrExists) && tables == old(tables)
      ensures table !in unavailable && table !in old(tables) ==>
        err == None && tables == old(tables)[table := TableMetadata(table, schema, 0)]
    {
      calls := calls + 1;
      if table in unavailable {
        err := Some(ErrUnavailable);
      } else if table in tables {
        err := Some(ErrExists);
      } else {
        tables := tables[table := TableMetadata(table, schema, 0)];
        err := None;
      }
    }

    /** Table(table).Update of the schema, guarded by the etag read with the metadata. */
    method Update(table: GoString, schema: Schema, etag: nat) returns (r: Result<TableMetadata>)
      modifies this
      ensures calls == old(calls) + 1
      ensures writes == old(writes)
      ensures r.Err? ==> tables == old(tables)
      ensures r.Ok? <==> UpdateAccepted(table, etag, schema, old(tables), unavailable)
      ensures r.Ok? ==> r.value == TableMetadata(old(tables)[table].name, schema, etag + 1)
      ensures r.Ok? ==> tables == old(tables)[table := r.value]
    {
      calls := calls + 1;
      if table in unavailable {
        r := Err(ErrUnavailable);
      } else if table !in tables {
        r := Err(ErrNotFound);
      } else if tables[table].etag != etag {
        r := Err(ErrETag);
      } else if !Typed(schema) {
        r := Err(ErrUntyped);
      } else {
        var meta := TableMetadata(tables[table].name, schema, etag + 1);
        tables := tables[table := meta];
        r := Ok(meta);
      }
    }

    /** Table(table).Inserter().Put: all the rows or none. */
    method Put(table: GoString, batch: seq<Row>) returns (err: Option<GoString>)
      modifies this
      ensures calls == old(calls) + 1
      ensures tables == old(tables)
      ensures err.None? <==> table !in unavailable && table !in insertUnavailable && table in tables
      ensures err.None? ==> writes == old(writes) + [Write(table, batch, false)]
      ensures err.Some? ==> writes == old(writes)
    {
      calls := calls + 1;
      if table in unavailable || table in insertUnavailable {
        err := Some(ErrUnavailable);
      } else if table !in tables {
        err := Some(ErrNotFound);
      } else {
        writes := writes + [Write(table, batch, false)];
        err := None;
      }
    }

    /** NewManagedStream on the table's default stream. */
    method NewManagedStream(table: GoString) returns (err: Option<GoString>)
      modifies this
      ensures calls == old(calls) + 1
      ensures tables == old(tables) && writes == old(writes)
      ensures err.None? <==> table !in writerUnavailable
    {
      calls := calls + 1;
      err := if table in writerUnavailable then Some(ErrUnavailable) else None;
    }

    /** ManagedStream.AppendRows and GetResult: all the rows or none. */
    method AppendRows(table: GoString, batch: seq<Row>) returns (err: Option<GoString>)
      modifies this
      ensures calls == old(calls) + 1
      ensures tables == old(tables)
      ensures err.None? <==> table !in writerUnavailable && table !in unavailable && table in tables
      ensures err.None? ==> writes == old(writes) + [Write(table, batch, true)]
      ensures err.Some? ==> writes == old(writes)
    {
      calls := calls + 1;
      if table in writerUnavailable || table in unavailable {
        err := Some(ErrUnavailable);
      } else if table !in tables {
        err := Some(ErrNotFound);
      } else {
        writes := writes + [Write(table, batch, true)];
        err := None;
      }
    }
  }
}
