/**
 * The BigQuery client of the library destination (bigquery/client.go):
 * per-table caches of table metadata and of Storage Write API streams, the
 * schema extension driven by the first record of a table, and SaveRecord,
 * which writes every table's records in chunks of at most 500, through the
 * Storage Write API until it first fails for that table and through the
 * insertAll API from then on.
 *
 * The service is the simulated `Dataset`; the rows it stores are the
 * records themselves (their JSON documents are what the stream is given,
 * and only whether they marshal matters here).  What SaveRecord does to the
 * service is stated against a reference definition, `RecordsPlan`: the
 * list of successful appends, in order, and whether the call fails.
 */
module BqClient {
  import opened Wrappers
  import opened Text
  import opened Clock
  import opened Pb
  import opened BqNaming
  import opened BqRemote
  import opened BqRecord
  import BqSchema

  /** The chunk size of SaveRecord. */
  const BatchSize: nat := 500

  /** The failure sets of the service and which batches convert to JSON: everything a plan depends on. */
  datatype Env = Env(unavailable: set<GoString>, writerUnavailable: set<GoString>,
                     insertUnavailable: set<GoString>, streamable: seq<Record> -> bool)

  /** Every record of the batch converts to JSON. */
  predicate Streamable(batch: seq<Record>, format: Time -> GoString)
  {
    forall k :: 0 <= k < |batch| ==> Marshalable(Document(batch[k], format))
  }

  /** Streamable as a value, for a given time format. */
  function StreamableBatches(format: Time -> GoString): seq<Record> -> bool
  {
    batch => Streamable(batch, format)
  }

  /** A chunk goes to the stream: the writer is still in use, the stream can be opened and every record marshals. */
  predicate Streams(table: GoString, batch: seq<Record>, managed: bool, env: Env)
  {
    managed && table !in env.writerUnavailable && env.streamable(batch)
  }

  /** The end of the chunk that starts at i: `min(i + 500, n)`. */
  function ChunkEnd(n: nat, i: nat): (e: nat)
    requires i < n
    ensures i < e <= n && e - i <= BatchSize
    ensures e < n ==> e == i + BatchSize
  {
    if i + BatchSize <= n then i + BatchSize else n
  }

  /** The rows of a list of appends, concatenated. */
  function Batches(writes: seq<Write<Record>>): seq<Record>
    decreases |writes|
  {
    if writes == [] then [] else writes[0].batch + Batches(writes[1..])
  }

  /**
   * The chunk loop from the chunk at i on: while `managed`, a chunk goes to
   * the stream when the stream can be opened and every record marshals;
   * otherwise it and every later chunk go to insertAll, and a refused
   * insertAll ends the loop with an error.
   */
  function ChunkPlan(table: GoString, events: seq<Record>, i: nat, managed: bool, env: Env): Plan<Record>
    decreases |events| - i
  {
    if i >= |events| then Plan([], false)
    else
      var batch := events[i..ChunkEnd(|events|, i)];
      if Streams(table, batch, managed, env) then
        var rest := ChunkPlan(table, events, i + BatchSize, true, env);
        Plan([Write(table, batch, true)] + rest.writes, rest.failed)
      else if table !in env.insertUnavailable then
        var rest := ChunkPlan(table, events, i + BatchSize, false, env);
        Plan([Write(table, batch, false)] + rest.writes, rest.failed)
      else
        Plan([], true)
  }

  /**
   * One table of SaveRecord: loading fails for an unavailable table; the
   * schema update that the first record's missing tags trigger fails when
   * the table has a column without a type; then the chunks.
   */
  function TablePlan(table: GoString, events: seq<Record>, cached: Option<TableMetadata>,
                     stored: Option<TableMetadata>, env: Env): Plan<Record>
  {
    var meta := LoadedMeta(table, cached, stored, env.unavailable);
    if meta.None? then Plan([], true)
    else if events != [] && IsTagMissing(meta.value.schema, events[0].tags) && !Typed(meta.value.schema) then Plan([], true)
    else ChunkPlan(table, events, 0, true, env)
  }

  /** All tables, in iteration order; the first failing table ends the call. */
  function RecordsPlan(records: map<GoString, seq<Record>>, order: seq<GoString>,
                       cache: map<GoString, TableMetadata>, remote: map<GoString, TableMetadata>, env: Env): Plan<Record>
    requires forall j :: 0 <= j < |order| ==> order[j] in records
    decreases |order|
  {
    if order == [] then Plan([], false)
    else
      var p := TablePlan(order[0], records[order[0]], Cached(cache, order[0]), Cached(remote, order[0]), env);
      if p.failed then p
      else
        var rest := RecordsPlan(records, order[1..], cache, remote, env);
        Plan(p.writes + rest.writes, rest.failed)
  }

  // ------------------------------------------------------------ the plans

  lemma ConcatAssoc<T>(a: seq<T>, b: seq<T>, c: seq<T>)
    ensures a + (b + c) == (a + b) + c
  {
  }

  lemma {:induction false} BatchesAppend(a: seq<Write<Record>>, b: seq<Write<Record>>)
    ensures Batches(a + b) == Batches(a) + Batches(b)
    decreases |a|
  {
    if a == [] {
      assert a + b == b;
    } else {
      assert (a + b)[0] == a[0] && (a + b)[1..] == a[1..] + b;
      BatchesAppend(a[1..], b);
    }
  }

  /** The appends of the chunk loop from the chunk at i on. */
  function ChunkWrites(table: GoString, events: seq<Record>, i: nat, managed: bool, env: Env): seq<Write<Record>>
  {
    ChunkPlan(table, events, i, managed, env).writes
  }

  /** One step of the chunk loop. */
  lemma ChunkPlanStep(table: GoString, events: seq<Record>, i: nat, managed: bool, env: Env)
    requires i < |events|
    ensures var batch := events[i..ChunkEnd(|events|, i)];
      var next := Streams(table, batch, managed, env);
      if next || table !in env.insertUnavailable then
        ChunkWrites(table, events, i, managed, env) == [Write(table, batch, next)] + ChunkWrites(table, events, i + BatchSize, next, env)
        && ChunkPlan(table, events, i, managed, env).failed == ChunkPlan(table, events, i + BatchSize, next, env).failed
      else
        ChunkPlan(table, events, i, managed, env) == Plan([], true)
  {
  }

  /** The chunks are consecutive and cover the events in order when the loop ends without error. */
  lemma {:induction false} ChunkPlanCovers(table: GoString, events: seq<Record>, i: nat, managed: bool, env: Env)
    requires i <= |events|
    ensures !ChunkPlan(table, events, i, managed, env).failed ==> Batches(ChunkWrites(table, events, i, managed, env)) == events[i..]
    decreases |events| - i
  {
    var p := ChunkPlan(table, events, i, managed, env);
    if i < |events| && !p.failed {
      var e := ChunkEnd(|events|, i);
      var batch := events[i..e];
      var next := Streams(table, batch, managed, env);
      var rest := ChunkPlan(table, events, i + BatchSize, next, env);
      assert p.writes == [Write(table, batch, next)] + rest.writes;
      assert Batches(p.writes) == batch + Batches(rest.writes);
      if e < |events| {
        ChunkPlanCovers(table, events, i + BatchSize, next, env);
        assert events[i..] == batch + events[e..];
      } else {
        assert events[i..] == batch;
      }
    }
  }

  /** When insertAll refuses a chunk, exactly the chunks before it were appended: a prefix of whole chunks. */
  lemma ChunkPlanFailurePrefix(table: GoString, events: seq<Record>, i: nat, managed: bool, env: Env)
    requires i <= |events| && ChunkPlan(table, events, i, managed, env).failed
    ensures exists m: nat :: i + BatchSize * m < |events| && Batches(ChunkWrites(table, events, i, managed, env)) == events[i..i + BatchSize * m]
  {
    var m := FailureChunks(table, events, i, managed, env);
  }

  /** ChunkPlanFailurePrefix with the number of chunks appended before the refused one. */
  lemma {:induction false} FailureChunks(table: GoString, events: seq<Record>, i: nat, managed: bool, env: Env) returns (m: nat)
    requires i <= |events| && ChunkPlan(table, events, i, managed, env).failed
    ensures i + BatchSize * m < |events| && Batches(ChunkWrites(table, events, i, managed, env)) == events[i..i + BatchSize * m]
    decreases |events| - i
  {
    assert i < |events|;
    var e := ChunkEnd(|events|, i);
    var batch := events[i..e];
    var next := Streams(table, batch, managed, env);
    ChunkPlanStep(table, events, i, managed, env);
    if next || table !in env.insertUnavailable {
      var rest := ChunkWrites(table, events, i + BatchSize, next, env);
      var m' := FailureChunks(table, events, i + BatchSize, next, env);
      m := m' + 1;
      var k := i + BatchSize * m;
      assert k == i + BatchSize + BatchSize * m';
      assert Batches(ChunkWrites(table, events, i, managed, env)) == batch + Batches(rest) by {
        BatchesAppend([Write(table, batch, next)], rest);
        assert [Write(table, batch, next)][1..] == [];
      }
      assert events[i..k] == batch + events[e..k];
    } else {
      m := 0;
      assert ChunkWrites(table, events, i, managed, env) == [];
      assert events[i..i] == [];
    }
  }

  /** Every append is one chunk: of the table, of 1 to 500 records. */
  lemma {:induction false} ChunkPlanSizes(table: GoString, events: seq<Record>, i: nat, managed: bool, env: Env)
    ensures forall j :: 0 <= j < |ChunkWrites(table, events, i, managed, env)| ==>
      ChunkWrites(table, events, i, managed, env)[j].table == table
      && 0 < |ChunkWrites(table, events, i, managed, env)[j].batch| <= BatchSize
    decreases |events| - i
  {
    if i < |events| {
      var batch := events[i..ChunkEnd(|events|, i)];
      var next := Streams(table, batch, managed, env);
      ChunkPlanSizes(table, events, i + BatchSize, next, env);
      var w := ChunkWrites(table, events, i, managed, env);
      var rest := ChunkWrites(table, events, i + BatchSize, next, env);
      if next || table !in env.insertUnavailable {
        assert w == [Write(table, batch, next)] + rest;
        forall j | 0 <= j < |w| ensures w[j].table == table && 0 < |w[j].batch| <= BatchSize {
          if j > 0 {
            assert w[j] == rest[j - 1];
          }
        }
      }
    }
  }

  /** Once a chunk has gone to insertAll, every later chunk of the table does too; none is streamed unless `managed`. */
  lemma {:induction false} ChunkPlanFallbackSticks(table: GoString, events: seq<Record>, i: nat, managed: bool, env: Env)
    ensures !managed ==> forall j :: 0 <= j < |ChunkWrites(table, events, i, managed, env)| ==>
      !ChunkWrites(table, events, i, managed, env)[j].streamed
    ensures forall j, k :: (0 <= j < k < |ChunkWrites(table, events, i, managed, env)|
      && !ChunkWrites(table, events, i, managed, env)[j].streamed) ==> !ChunkWrites(table, events, i, managed, env)[k].streamed
    decreases |events| - i
  {
    if i < |events| {
      var batch := events[i..ChunkEnd(|events|, i)];
      var next := Streams(table, batch, managed, env);
      ChunkPlanFallbackSticks(table, events, i + BatchSize, next, env);
      var w := ChunkWrites(table, events, i, managed, env);
      var rest := ChunkWrites(table, events, i + BatchSize, next, env);
      if next || table !in env.insertUnavailable {
        assert w == [Write(table, batch, next)] + rest;
        forall j | 0 <= j < |w| && !managed ensures !w[j].streamed {
          if j > 0 {
            assert w[j] == rest[j - 1];
          }
        }
        forall j, k | 0 <= j < k < |w| && !w[j].streamed
          ensures !w[k].streamed
        {
          assert w[k] == rest[k - 1];
          if j > 0 {
            assert w[j] == rest[j - 1];
          }
        }
      }
    }
  }

  /** With the stream available and no float tag, every chunk is streamed and nothing fails. */
  lemma {:induction false} ChunkPlanAllStreamed(table: GoString, events: seq<Record>, i: nat, format: Time -> GoString, env: Env)
    requires table !in env.writerUnavailable && env.streamable == StreamableBatches(format)
    requires forall k, j :: 0 <= k < |events| && 0 <= j < |events[k].tags| ==>
      !(events[k].tags[j].value.Some? && events[k].tags[j].value.value.DoubleValue?)
    ensures !ChunkPlan(table, events, i, true, env).failed
    ensures forall j :: 0 <= j < |ChunkWrites(table, events, i, true, env)| ==> ChunkWrites(table, events, i, true, env)[j].streamed
    decreases |events| - i
  {
    if i < |events| {
      var batch := events[i..ChunkEnd(|events|, i)];
      forall k | 0 <= k < |batch| ensures Marshalable(Document(batch[k], format)) {
        assert batch[k] == events[i + k];
        NoFloatsMarshal(batch[k], format);
      }
      assert Streams(table, batch, true, env);
      ChunkPlanAllStreamed(table, events, i + BatchSize, format, env);
      var w := ChunkWrites(table, events, i, true, env);
      var rest := ChunkWrites(table, events, i + BatchSize, true, env);
      assert w == [Write(table, batch, true)] + rest;
      forall j | 0 <= j < |w| ensures w[j].streamed {
        if j > 0 {
          assert w[j] == rest[j - 1];
        }
      }
    }
  }

  /** A table with no records makes no append and, once loaded, cannot fail. */
  lemma NoEventsNoWrites(table: GoString, cached: Option<TableMetadata>, stored: Option<TableMetadata>, env: Env)
    requires cached.Some? || table !in env.unavailable
    ensures TablePlan(table, [], cached, stored, env) == Plan([], false)
  {
  }

  /** A successful SaveRecord appends each table's records exactly once, in order. */
  lemma {:induction false} TablePlanCovers(table: GoString, events: seq<Record>, cached: Option<TableMetadata>,
                                           stored: Option<TableMetadata>, env: Env)
    ensures var p := TablePlan(table, events, cached, stored, env);
      !p.failed ==> Batches(p.writes) == events
  {
    var meta := LoadedMeta(table, cached, stored, env.unavailable);
    if meta.Some? && !(events != [] && IsTagMissing(meta.value.schema, events[0].tags) && !Typed(meta.value.schema)) {
      ChunkPlanCovers(table, events, 0, true, env);
      assert events[0..] == events;
    }
  }

  /** One table of SaveRecord's loop: the plan from the k-th table on. */
  lemma RecordsPlanStep(records: map<GoString, seq<Record>>, order: seq<GoString>, k: nat,
                        cache: map<GoString, TableMetadata>, remote: map<GoString, TableMetadata>, env: Env)
    requires forall j :: 0 <= j < |order| ==> order[j] in records
    requires k < |order|
    ensures var p := TablePlan(order[k], records[order[k]], Cached(cache, order[k]), Cached(remote, order[k]), env);
      var rest := RecordsPlan(records, order[k + 1..], cache, remote, env);
      RecordsPlan(records, order[k..], cache, remote, env) == if p.failed then p else Plan(p.writes + rest.writes, rest.failed)
  {
    assert order[k..][0] == order[k] && order[k..][1..] == order[k + 1..];
  }

  /** Every append of a table's plan is to that table. */
  lemma TablePlanOneTable(table: GoString, events: seq<Record>, cached: Option<TableMetadata>,
                          stored: Option<TableMetadata>, env: Env)
    ensures var p := TablePlan(table, events, cached, stored, env);
      forall j :: 0 <= j < |p.writes| ==> p.writes[j].table == table
  {
    var p := TablePlan(table, events, cached, stored, env);
    ChunkPlanSizes(table, events, 0, true, env);
    assert p.writes == [] || p.writes == ChunkWrites(table, events, 0, true, env);
  }

  /** Appends all to one table store their batches, in order, in that table and nothing elsewhere. */
  lemma {:induction false} RowsInOneTable(writes: seq<Write<Record>>, table: GoString, t: GoString)
    requires forall j :: 0 <= j < |writes| ==> writes[j].table == table
    ensures RowsIn(writes, t) == if t == table then Batches(writes) else []
    decreases |writes|
  {
    if writes != [] {
      var init := writes[..|writes| - 1];
      var last := writes[|writes| - 1];
      assert writes == init + [last];
      RowsInOneTable(init, table, t);
      BatchesAppend(init, [last]);
      assert [last][1..] == [];
    }
  }

  /** SaveRecord stores nothing in a table it was not given, even when it fails. */
  lemma {:induction false} RecordsPlanOtherRows(records: map<GoString, seq<Record>>, order: seq<GoString>,
                                                cache: map<GoString, TableMetadata>, remote: map<GoString, TableMetadata>, env: Env, t: GoString)
    requires forall j :: 0 <= j < |order| ==> order[j] in records
    requires t !in order
    ensures RowsIn(RecordsPlan(records, order, cache, remote, env).writes, t) == []
    decreases |order|
  {
    if order != [] {
      var u := order[0];
      var p0 := TablePlan(u, records[u], Cached(cache, u), Cached(remote, u), env);
      TablePlanOneTable(u, records[u], Cached(cache, u), Cached(remote, u), env);
      RowsInOneTable(p0.writes, u, t);
      if !p0.failed {
        var rest := RecordsPlan(records, order[1..], cache, remote, env);
        assert t !in order[1..] by {
          assert order == [u] + order[1..];
        }
        RecordsPlanOtherRows(records, order[1..], cache, remote, env, t);
        RowsInAppend(p0.writes, rest.writes, t);
      }
    }
  }

  /** When SaveRecord succeeds, every table it was given gets exactly its records, in order. */
  lemma {:induction false} RecordsPlanOwnRows(records: map<GoString, seq<Record>>, order: seq<GoString>,
                                              cache: map<GoString, TableMetadata>, remote: map<GoString, TableMetadata>, env: Env, t: GoString)
    requires forall j :: 0 <= j < |order| ==> order[j] in records
    requires forall j, k :: 0 <= j < k < |order| ==> order[j] != order[k]
    requires t in order && !RecordsPlan(records, order, cache, remote, env).failed
    ensures RowsIn(RecordsPlan(records, order, cache, remote, env).writes, t) == records[t]
    decreases |order|
  {
    var u := order[0];
    var p0 := TablePlan(u, records[u], Cached(cache, u), Cached(remote, u), env);
    var rest := RecordsPlan(records, order[1..], cache, remote, env);
    assert !p0.failed && !rest.failed && RecordsPlan(records, order, cache, remote, env).writes == p0.writes + rest.writes;
    if t == u {
      assert RowsIn(p0.writes, t) == records[t] by {
        TablePlanOneTable(u, records[u], Cached(cache, u), Cached(remote, u), env);
        RowsInOneTable(p0.writes, u, t);
        TablePlanCovers(u, records[u], Cached(cache, u), Cached(remote, u), env);
      }
      assert RowsIn(rest.writes, t) == [] by {
        HeadNotInTail(order);
        RecordsPlanOtherRows(records, order[1..], cache, remote, env, t);
      }
    } else {
      assert RowsIn(p0.writes, t) == [] by {
        TablePlanOneTable(u, records[u], Cached(cache, u), Cached(remote, u), env);
        RowsInOneTable(p0.writes, u, t);
      }
      assert RowsIn(rest.writes, t) == records[t] by {
        assert t in order[1..] by {
          assert order == [u] + order[1..];
        }
        RecordsPlanOwnRows(records, order[1..], cache, remote, env, t);
      }
    }
    RowsInAppend(p0.writes, rest.writes, t);
  }

  lemma HeadNotInTail(order: seq<GoString>)
    requires order != [] && forall j, k :: 0 <= j < k < |order| ==> order[j] != order[k]
    ensures order[0] !in order[1..]
  {
    forall j | 0 <= j < |order[1..]| ensures order[1..][j] != order[0] {
      assert order[1..][j] == order[j + 1];
    }
  }

  /** SaveRecord's appends after any earlier ones: the rows of every table as RecordsPlanOtherRows and RecordsPlanOwnRows say. */
  lemma RecordsPlanRows(before: seq<Write<Record>>, records: map<GoString, seq<Record>>, order: seq<GoString>,
                        cache: map<GoString, TableMetadata>, remote: map<GoString, TableMetadata>, env: Env)
    requires forall j :: 0 <= j < |order| ==> order[j] in records
    requires forall t :: t in records ==> t in order
    requires forall j, k :: 0 <= j < k < |order| ==> order[j] != order[k]
    ensures var p := RecordsPlan(records, order, cache, remote, env);
      (forall t :: t !in records ==> RowsIn(before + p.writes, t) == RowsIn(before, t))
      && (!p.failed ==> forall t :: t in records ==> RowsIn(before + p.writes, t) == RowsIn(before, t) + records[t])
  {
    var p := RecordsPlan(records, order, cache, remote, env);
    forall t ensures RowsIn(before + p.writes, t) == RowsIn(before, t) + RowsIn(p.writes, t) {
      RowsInAppend(before, p.writes, t);
    }
    forall t | t !in records ensures RowsIn(p.writes, t) == [] {
      assert forall j :: 0 <= j < |order| ==> order[j] != t;
      RecordsPlanOtherRows(records, order, cache, remote, env, t);
    }
    if !p.failed {
      forall t | t in records ensures RowsIn(p.writes, t) == records[t] {
        RecordsPlanOwnRows(records, order, cache, remote, env, t);
      }
    }
    assert forall s: seq<Record> :: s + [] == s;
  }

  /** An appended default schema has a type for every column. */
  lemma DefaultTyped()
    ensures Typed(DefaultSchema)
  {
  }

  /** New columns always carry a type, so an extended schema is typed exactly when the original is. */
  lemma NewColumnsTyped(original: Schema, tags: seq<Tag>)
    ensures Typed(original + NewColumns(original, tags, ColumnType)) <==> Typed(original)
  {
    var added := NewColumns(original, tags, ColumnType);
    if Typed(original) {
      NewColumnsOnlyTyped(original, tags);
      forall i | 0 <= i < |original + added| ensures (original + added)[i].fieldType != Untyped {
        if i >= |original| {
          assert (original + added)[i] == added[i - |original|];
        }
      }
    } else {
      var i :| 0 <= i < |original| && original[i].fieldType == Untyped;
      assert (original + added)[i] == original[i];
    }
  }

  /** ColumnType never answers Untyped, so NewColumns adds only typed columns. */
  lemma {:induction false} NewColumnsOnlyTyped(original: Schema, tags: seq<Tag>)
    ensures Typed(NewColumns(original, tags, ColumnType))
    decreases |tags|
  {
    if tags != [] {
      NewColumnsOnlyTyped(original, tags[1..]);
      var name := TagFieldName(tags[0].key);
      var here: Schema := if !HasColumn(original, name) && ColumnType(tags[0].value).Some?
        then [FieldSchema(name, ColumnType(tags[0].value).value)] else [];
      var rest := NewColumns(original, tags[1..], ColumnType);
      assert NewColumns(original, tags, ColumnType) == here + rest;
      assert ColumnType(tags[0].value).Some? ==> ColumnType(tags[0].value).value != Untyped;
      forall i | 0 <= i < |here + rest| ensures (here + rest)[i].fieldType != Untyped {
        if i >= |here| {
          assert (here + rest)[i] == rest[i - |here|];
        }
      }
    }
  }

  // ------------------------------------------------------------ the client

  class BigQueryClient {
    const ds: Dataset<Record>
    /** The time format of the JSON documents (RFC 3339 with microseconds); formatting is not modelled. */
    const format: Time -> GoString
    /** Table metadata by table name. */
    var tables: map<GoString, TableMetadata>
    /** The tables that have an open stream. */
    var streams: set<GoString>

    /**
     * The caches agree with the service, cached tables are available and
     * cached streams are of tables the Storage Write API accepts.
     */
    predicate Valid()
      reads this, ds
    {
      (forall t :: t in tables ==> t in ds.tables && tables[t] == ds.tables[t] && t !in ds.unavailable)
      && (forall t :: t in streams ==> t !in ds.writerUnavailable)
    }

    function Environment(): Env
    {
      Env(ds.unavailable, ds.writerUnavailable, ds.insertUnavailable, StreamableBatches(format))
    }

    /** NewBigQueryClient: empty caches. */
    constructor(ds: Dataset<Record>, format: Time -> GoString)
      ensures this.ds == ds && this.format == format && tables == map[] && streams == {}
      ensures Valid()
    {
      this.ds := ds;
      this.format := format;
      tables := map[];
      streams := {};
    }

    /** getOrCreateManagedStream: a cached stream without a remote call, else a new one, cached on success. */
    method GetOrCreateManagedStream(table: GoString) returns (err: Option<string>)
      requires Valid()
      modifies this, ds
      ensures Valid() && tables == old(tables)
      ensures ds.tables == old(ds.tables) && ds.writes == old(ds.writes)
      ensures table in old(streams) ==> err == None && streams == old(streams) && ds.calls == old(ds.calls)
      ensures table !in old(streams) ==> ds.calls == old(ds.calls) + 1 && (err.None? <==> table !in ds.writerUnavailable)
      ensures streams == old(streams) + (if err.None? then {table} else {})
    {
      if table in streams {
        return None;
      }
      err := ds.NewManagedStream(table);
      if err.None? {
        streams := streams + {table};
      }
    }

    /** createOrLoadTableScheme: a cached entry without a remote call, else the table loaded (or created), cached on success. */
    method CreateOrLoadTableScheme(table: GoString) returns (r: Result<TableMetadata>)
      requires Valid()
      modifies this, ds
      ensures Valid() && streams == old(streams)
      ensures ds.writes == old(ds.writes)
      ensures table in old(tables) ==> r == Ok(old(tables)[table]) && tables == old(tables) && unchanged(ds)
      ensures r.Ok? <==> LoadedMeta(table, Cached(old(tables), table), Cached(old(ds.tables), table), ds.unavailable).Some?
      ensures r.Ok? ==> r.value == LoadedMeta(table, Cached(old(tables), table), Cached(old(ds.tables), table), ds.unavailable).value
      ensures r.Ok? ==> tables == old(tables)[table := r.value] && table in ds.tables && ds.tables[table] == r.value
      ensures r.Err? ==> tables == old(tables)
      ensures forall t :: t != table ==> Cached(ds.tables, t) == Cached(old(ds.tables), t)
    {
      if table in tables {
        return Ok(tables[table]);
      }
      r := BqSchema.LoadTableMetadata(ds, table);
      if r.Ok? {
        tables := tables[table := r.value];
      }
    }

    /** convertRecordsToJSON: every record's document, or the first conversion error. */
    method ConvertRecordsToJSON(batch: seq<Record>) returns (r: Result<seq<map<GoString, JsonValue>>>)
      ensures r.Ok? <==> Streamable(batch, format)
      ensures r.Ok? ==> |r.value| == |batch| && forall k :: 0 <= k < |batch| ==> r.value[k] == Document(batch[k], format)
    {
      var rows: seq<map<GoString, JsonValue>> := [];
      for i := 0 to |batch|
        invariant |rows| == i
        invariant forall k :: 0 <= k < i ==> rows[k] == Document(batch[k], format) && Marshalable(rows[k])
      {
        var doc := ToJSON(batch[i], format);
        if doc.Err? {
          return Err(doc.error);
        }
        rows := rows + [doc.value];
      }
      return Ok(rows);
    }

    /** saveBatchWithManagedWriter: the stream, the documents, then one append of the whole batch. */
    method SaveBatchWithManagedWriter(table: GoString, batch: seq<Record>) returns (err: Option<string>)
      requires Valid()
      modifies this, ds
      ensures Valid() && tables == old(tables) && ds.tables == old(ds.tables)
      ensures streams == old(streams) + (if table !in ds.writerUnavailable then {table} else {})
      ensures err.None? <==> table !in ds.writerUnavailable && Streamable(batch, format) && table !in ds.unavailable && table in ds.tables
      ensures err.None? ==> ds.writes == old(ds.writes) + [Write(table, batch, true)]
      ensures err.Some? ==> ds.writes == old(ds.writes)
    {
      err := GetOrCreateManagedStream(table);
      if err.Some? {
        return;
      }
      var rows := ConvertRecordsToJSON(batch);
      if rows.Err? {
        return Some(rows.error);
      }
      err := ds.AppendRows(table, batch);
    }

    /**
     * bigqueryUpdate as written: the schema extended with a typed column per
     * missing tag of a known variant, sent as an update (even when nothing
     * was added) to the table named by metadata.name, the table's friendly
     * name; on success the metadata is cached and the stream evicted under
     * that name.  For a table whose friendly name is not its ID this is
     * another table or none (see FriendlyNameMissesTable); SaveTable uses
     * UpdateTable instead.
     */
    method BigqueryUpdate(metadata: TableMetadata, tags: seq<Tag>) returns (err: Option<string>)
      requires Valid()
      modifies this, ds
      ensures Valid()
      ensures ds.writes == old(ds.writes) && ds.calls == old(ds.calls) + 1
      ensures err.None? <==> UpdateAccepted(metadata.name, metadata.etag, metadata.schema, old(ds.tables), ds.unavailable)
      ensures err.None? ==>
        var md := TableMetadata(old(ds.tables)[metadata.name].name,
          metadata.schema + NewColumns(metadata.schema, tags, ColumnType), metadata.etag + 1);
        ds.tables == old(ds.tables)[metadata.name := md] && tables == old(tables)[metadata.name := md]
        && streams == old(streams) - {metadata.name}
      ensures err.Some? ==> ds.tables == old(ds.tables) && tables == old(tables) && streams == old(streams)
    {
      var schema := AppendMissing(metadata.schema, tags, ColumnType);
      NewColumnsTyped(metadata.schema, tags);
      var md := ds.Update(metadata.name, schema, metadata.etag);
      if md.Err? {
        return Some(md.error);
      }
      tables := tables[metadata.name := md.value];
      if metadata.name in streams {
        streams := streams - {metadata.name};
      }
      return None;
    }

    /**
     * bigqueryUpdate as evidently intended: the same update addressed to the
     * table by its ID, with the metadata cached and the stream evicted under
     * that ID.
     */
    method UpdateTable(table: GoString, metadata: TableMetadata, tags: seq<Tag>) returns (err: Option<string>)
      requires Valid()
      modifies this, ds
      ensures Valid()
      ensures ds.writes == old(ds.writes) && ds.calls == old(ds.calls) + 1
      ensures err.None? <==> UpdateAccepted(table, metadata.etag, metadata.schema, old(ds.tables), ds.unavailable)
      ensures err.None? ==>
        var md := TableMetadata(old(ds.tables)[table].name,
          metadata.schema + NewColumns(metadata.schema, tags, ColumnType), metadata.etag + 1);
        ds.tables == old(ds.tables)[table := md] && tables == old(tables)[table := md]
        && streams == old(streams) - {table}
      ensures err.Some? ==> ds.tables == old(ds.tables) && tables == old(tables) && streams == old(streams)
    {
      var schema := AppendMissing(metadata.schema, tags, ColumnType);
      NewColumnsTyped(metadata.schema, tags);
      var md := ds.Update(table, schema, metadata.etag);
      if md.Err? {
        return Some(md.error);
      }
      tables := tables[table := md.value];
      if table in streams {
        streams := streams - {table};
      }
      return None;
    }

    /** One chunk: the stream while `managed`, else (or when the stream fails) insertAll. */
    method SaveChunk(table: GoString, batch: seq<Record>, managed: bool) returns (streamed: bool, err: Option<string>)
      requires Valid() && table in ds.tables && table !in ds.unavailable
      modifies this, ds
      ensures Valid() && tables == old(tables) && ds.tables == old(ds.tables)
      ensures streams <= old(streams) + {table}
      ensures err.None? <==> Streams(table, batch, managed, Environment()) || table !in ds.insertUnavailable
      ensures err.None? ==> (streamed == Streams(table, batch, managed, Environment())
        && ds.writes == old(ds.writes) + [Write(table, batch, streamed)])
      ensures err.Some? ==> ds.writes == old(ds.writes)
    {
      if managed {
        var e := SaveBatchWithManagedWriter(table, batch);
        if e.None? {
          return true, None;
        }
      }
      err := ds.Put(table, batch);
      streamed := false;
    }

    /** The chunk loop of SaveRecord for one table. */
    method SaveChunks(table: GoString, events: seq<Record>) returns (err: Option<string>)
      requires Valid() && table in ds.tables && table !in ds.unavailable
      modifies this, ds
      ensures Valid() && tables == old(tables) && ds.tables == old(ds.tables)
      ensures streams <= old(streams) + {table}
      ensures var p := ChunkPlan(table, events, 0, true, Environment());
        ds.writes == old(ds.writes) + p.writes && (err.None? <==> !p.failed)
    {
      var managed := true;
      var i := 0;
      ghost var env := Environment();
      ghost var whole := ChunkPlan(table, events, 0, true, env);
      ghost var done: seq<Write<Record>> := [];
      while i < |events|
        invariant Valid() && tables == old(tables) && ds.tables == old(ds.tables)
        invariant streams <= old(streams) + {table}
        invariant whole.writes == done + ChunkWrites(table, events, i, managed, env)
        invariant whole.failed == ChunkPlan(table, events, i, managed, env).failed
        invariant ds.writes == old(ds.writes) + done
        decreases |events| - i
      {
        var batch := events[i..ChunkEnd(|events|, i)];
        ChunkPlanStep(table, events, i, managed, env);
        var streamed;
        streamed, err := SaveChunk(table, batch, managed);
        if err.Some? {
          assert ChunkWrites(table, events, i, managed, env) == [];
          assert done + [] == done;
          return;
        }
        var w := Write(table, batch, streamed);
        ConcatAssoc(done, [w], ChunkWrites(table, events, i + BatchSize, streamed, env));
        done := done + [w];
        i := i + BatchSize;
        managed := streamed;
      }
      assert ChunkPlan(table, events, i, managed, env) == Plan([], false);
      assert done + [] == done;
      err := None;
    }

    /** One table of SaveRecord: load, extend the schema for the first record's tags (by table ID, see UpdateTable), then the chunks. */
    method SaveTable(table: GoString, events: seq<Record>) returns (err: Option<string>)
      requires Valid()
      modifies this, ds
      ensures Valid()
      ensures var p := TablePlan(table, events, Cached(old(tables), table), Cached(old(ds.tables), table), Environment());
        ds.writes == old(ds.writes) + p.writes && (err.None? <==> !p.failed)
      ensures forall t :: t != table ==> Cached(tables, t) == Cached(old(tables), t)
      ensures forall t :: t != table ==> Cached(ds.tables, t) == Cached(old(ds.tables), t)
    {
      var meta := CreateOrLoadTableScheme(table);
      if meta.Err? {
        return Some(meta.error);
      }
      if |events| > 0 && IsTagMissing(meta.value.schema, events[0].tags) {
        err := UpdateTable(table, meta.value, events[0].tags);
        if err.Some? {
          return;
        }
      }
      err := SaveChunks(table, events);
    }

    /** The table loop of SaveRecord: every table in `order`, the first error ending the loop. */
    method SaveTables(records: map<GoString, seq<Record>>, order: seq<GoString>) returns (err: Option<string>)
      requires Valid()
      requires forall j :: 0 <= j < |order| ==> order[j] in records
      requires forall j, k :: 0 <= j < k < |order| ==> order[j] != order[k]
      modifies this, ds
      ensures Valid()
      ensures var p := RecordsPlan(records, order, old(tables), old(ds.tables), Environment());
        ds.writes == old(ds.writes) + p.writes && (err.None? <==> !p.failed)
    {
      ghost var whole := RecordsPlan(records, order, tables, ds.tables, Environment());
      ghost var cache0 := tables;
      ghost var remote0 := ds.tables;
      ghost var before := ds.writes;
      ghost var done: seq<Write<Record>> := [];
      for k := 0 to |order|
        invariant Valid()
        invariant whole == Plan(done + RecordsPlan(records, order[k..], cache0, remote0, Environment()).writes,
          RecordsPlan(records, order[k..], cache0, remote0, Environment()).failed)
        invariant ds.writes == before + done
        invariant forall j :: k <= j < |order| ==> Cached(tables, order[j]) == Cached(cache0, order[j])
        invariant forall j :: k <= j < |order| ==> Cached(ds.tables, order[j]) == Cached(remote0, order[j])
      {
        var t := order[k];
        ghost var p := TablePlan(t, records[t], Cached(cache0, t), Cached(remote0, t), Environment());
        ghost var rest := RecordsPlan(records, order[k + 1..], cache0, remote0, Environment());
        RecordsPlanStep(records, order, k, cache0, remote0, Environment());
        assert Cached(tables, t) == Cached(cache0, t) && Cached(ds.tables, t) == Cached(remote0, t);
        err := SaveTable(t, records[t]);
        assert ds.writes == before + done + p.writes && (err.None? <==> !p.failed);
        ConcatAssoc(before, done, p.writes);
        if err.Some? {
          assert whole == Plan(done + p.writes, true);
          return;
        }
        ConcatAssoc(done, p.writes, rest.writes);
        done := done + p.writes;
      }
      assert order[|order|..] == [];
      assert done + [] == done;
      return None;
    }

    /**
     * SaveRecord: every table in the map's iteration order (`order`), the
     * first error ending the call.
     */
    method SaveRecord(records: map<GoString, seq<Record>>, order: seq<GoString>) returns (err: Option<string>)
      requires Valid()
      requires forall j :: 0 <= j < |order| ==> order[j] in records
      requires forall t :: t in records ==> t in order
      requires forall j, k :: 0 <= j < k < |order| ==> order[j] != order[k]
      modifies this, ds
      ensures Valid()
      ensures var p := RecordsPlan(records, order, old(tables), old(ds.tables), Environment());
        ds.writes == old(ds.writes) + p.writes && (err.None? <==> !p.failed)
      ensures err.None? ==> forall t :: t in records ==> ds.RowsOf(t) == old(ds.RowsOf(t)) + records[t]
      ensures forall t :: t !in records ==> ds.RowsOf(t) == old(ds.RowsOf(t))
    {
      RecordsPlanRows(ds.writes, records, order, tables, ds.tables, Environment());
      err := SaveTables(records, order);
    }

    /**
     * Close: every cached stream is closed and removed.  Go aggregates the
     * errors of closing the streams and the two clients and returns them;
     * the simulated service never fails a close, so that error is always
     * nil here and Close returns nothing.
     */
    method Close()
      requires Valid()
      modifies this
      ensures Valid() && streams == {} && tables == old(tables)
    {
      while streams != {}
        invariant Valid() && tables == old(tables)
        decreases |streams|
      {
        var t :| t in streams;
        streams := streams - {t};
      }
    }
  }
}
