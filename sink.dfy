/**
 * Receive of the receiver sinks: eventkitd-bigquery/bigquery/sink.go and
 * the BigQuerySink of eventkitd-bigquery/main.go and
 * cmd/eventkitd-sink-bigquery/main.go.
 *
 * A packet's events become records.  The start of the sender's clock is
 * moved to the receiver's clock: the corrected start is the reception
 * instant minus the packet's send offset.  Each event's time is the
 * corrected start plus the event's offset, and every record carries the
 * same correction, the corrected start minus the sender's start timestamp.
 * Records are grouped by table name in event order, then handed to the
 * table loop (InsertSink.InsertClient.SaveRecord).  Go's map iteration
 * order is the `order` parameter.
 */
module Sink {
  import opened Wrappers
  import opened Text
  import opened Clock
  import opened Pb
  import opened PbUtils
  import opened BqNaming
  import opened BqRemote
  import opened BqRecord
  import opened Grouping
  import opened InsertSink

  /** The sender's start on the receiver's clock: the reception instant minus the send offset (the negation wraps as int64). */
  function CorrectedStart(receivedAt: Time, sendOffsetNs: int64): Time
  {
    Add(receivedAt, Neg(sendOffsetNs))
  }

  /** tableName(event): the table of an event's name and scope. */
  function EventTable(e: Event): GoString
  {
    TableName(e.scope, e.name)
  }

  /** The record of one event of a packet with a start timestamp. */
  function EventRecord(p: Packet, address: GoString, receivedAt: Time, e: Event): Record
    requires p.startTimestamp.Some?
  {
    var start := CorrectedStart(receivedAt, p.sendOffsetNs);
    Record(p.application, p.applicationVersion, p.instance, address, receivedAt,
      Add(start, e.timestampOffsetNs), Sub(start, AsTime(p.startTimestamp.value)), e.tags)
  }

  /** The events' records, each under its table name, in event order. */
  function Keyed(p: Packet, address: GoString, receivedAt: Time): (pairs: seq<(GoString, Record)>)
    requires p.startTimestamp.Some?
    ensures |pairs| == |p.events|
  {
    seq(|p.events|, i requires 0 <= i < |p.events| =>
      (EventTable(p.events[i]), EventRecord(p, address, receivedAt, p.events[i])))
  }

  /**
   * The records map Receive builds.  The correction is computed inside the
   * event loop, so a packet without a start timestamp dereferences nil only
   * when it has an event.
   */
  function PacketRecords(p: Packet, address: GoString, receivedAt: Time): Outcome<map<GoString, seq<Record>>>
  {
    if p.events == [] then Returns(map[])
    else if p.startTimestamp.None? then Panics(ErrNilDereference)
    else Returns(Grouped(Keyed(p, address, receivedAt)))
  }

  /** The building loop of Receive. */
  method BuildRecords(p: Packet, address: GoString, receivedAt: Time) returns (r: Outcome<map<GoString, seq<Record>>>)
    ensures r == PacketRecords(p, address, receivedAt)
  {
    var records: map<GoString, seq<Record>> := map[];
    var start := CorrectedStart(receivedAt, p.sendOffsetNs);
    for i := 0 to |p.events|
      invariant i > 0 ==> p.startTimestamp.Some?
      invariant p.startTimestamp.Some? ==> records == Grouped(Keyed(p, address, receivedAt)[..i])
      invariant p.startTimestamp.None? ==> i == 0 && records == map[]
    {
      var event := p.events[i];
      var eventTime := Add(start, event.timestampOffsetNs);
      if p.startTimestamp.None? {
        return Panics(ErrNilDereference);
      }
      var correction := Sub(start, AsTime(p.startTimestamp.value));
      var k := EventTable(event);
      var record := Record(p.application, p.applicationVersion, p.instance, address, receivedAt, eventTime, correction, event.tags);
      assert record == EventRecord(p, address, receivedAt, event);
      GroupedSnoc(Keyed(p, address, receivedAt), i);
      records := Appended(records, k, record);
    }
    if p.events != [] {
      assert Keyed(p, address, receivedAt)[..|p.events|] == Keyed(p, address, receivedAt);
    }
    return Returns(records);
  }

  /** A packet with events and without a start timestamp panics; one without events never does. */
  lemma PacketRecordsPanics(p: Packet, address: GoString, receivedAt: Time)
    ensures PacketRecords(p, address, receivedAt).Panics? <==> p.events != [] && p.startTimestamp.None?
    ensures p.events == [] ==> PacketRecords(p, address, receivedAt) == Returns(map[])
  {
  }

  /**
   * A table has a list exactly when some event maps to it, and the list
   * holds that table's events' records in event order.
   */
  lemma PacketRecordsGroups(p: Packet, address: GoString, receivedAt: Time, table: GoString)
    requires p.startTimestamp.Some?
    ensures var r := PacketRecords(p, address, receivedAt);
      r.Returns?
      && (table in r.value <==> exists i :: 0 <= i < |p.events| && EventTable(p.events[i]) == table)
      && (table in r.value ==> r.value[table] == Select(Keyed(p, address, receivedAt), table))
  {
    var pairs := Keyed(p, address, receivedAt);
    var r := Grouped(pairs);
    assert PacketRecords(p, address, receivedAt) == Returns(r) by {
      if p.events == [] {
        assert pairs == [];
      }
    }
    assert (table in r <==> exists i :: 0 <= i < |pairs| && pairs[i].0 == table)
      && (table in r ==> r[table] == Select(pairs, table)) by {
      GroupedSelect(pairs, table);
    }
    if table in r {
      var i :| 0 <= i < |pairs| && pairs[i].0 == table;
      assert EventTable(p.events[i]) == table;
    }
    if i :| 0 <= i < |p.events| && EventTable(p.events[i]) == table {
      assert pairs[i].0 == table;
    }
  }

  /** A table's list holds one record per event of that table. */
  lemma PacketRecordsCount(p: Packet, address: GoString, receivedAt: Time, table: GoString)
    requires p.startTimestamp.Some?
    ensures var r := PacketRecords(p, address, receivedAt);
      r.Returns?
      && |if table in r.value then r.value[table] else []|
         == |set i | 0 <= i < |p.events| && EventTable(p.events[i]) == table|
  {
    var pairs := Keyed(p, address, receivedAt);
    var r := Grouped(pairs);
    assert PacketRecords(p, address, receivedAt) == Returns(r) by {
      if p.events == [] {
        assert pairs == [];
      }
    }
    assert (if table in r then r[table] else []) == Select(pairs, table) by {
      GroupedSelect(pairs, table);
    }
    var byPair := set i | 0 <= i < |pairs| && pairs[i].0 == table;
    var byEvent := set i | 0 <= i < |p.events| && EventTable(p.events[i]) == table;
    assert |Select(pairs, table)| == |byPair| by {
      SelectCount(pairs, table);
    }
    assert byPair == byEvent by {
      KeyedTables(p, address, receivedAt, table);
    }
  }

  lemma KeyedTables(p: Packet, address: GoString, receivedAt: Time, table: GoString)
    requires p.startTimestamp.Some?
    ensures var pairs := Keyed(p, address, receivedAt);
      (set i | 0 <= i < |pairs| && pairs[i].0 == table) == (set i | 0 <= i < |p.events| && EventTable(p.events[i]) == table)
  {
    var pairs := Keyed(p, address, receivedAt);
    forall i | 0 <= i < |pairs| ensures pairs[i].0 == EventTable(p.events[i]) {
    }
  }

  /**
   * Every record of a packet carries the packet's application, instance,
   * source and reception instant, and one correction shared by all: the
   * corrected start minus the start timestamp.  Its time is the corrected
   * start plus the offset of an event of the same table.
   */
  lemma PacketRecordsUniform(p: Packet, address: GoString, receivedAt: Time, table: GoString, x: Record)
    requires PacketRecords(p, address, receivedAt).Returns?
    requires table in PacketRecords(p, address, receivedAt).value && x in PacketRecords(p, address, receivedAt).value[table]
    ensures p.startTimestamp.Some?
    ensures x.appName == p.application && x.appVersion == p.applicationVersion && x.instance == p.instance
    ensures x.address == address && x.receivedAt == receivedAt
    ensures x.correction == Sub(CorrectedStart(receivedAt, p.sendOffsetNs), AsTime(p.startTimestamp.value))
    ensures exists i :: (0 <= i < |p.events| && EventTable(p.events[i]) == table
      && x.timestamp == CorrectedStart(receivedAt, p.sendOffsetNs) + p.events[i].timestampOffsetNs
      && x.tags == p.events[i].tags)
  {
    var i := RecordSource(p, address, receivedAt, table, x);
    assert x.timestamp == CorrectedStart(receivedAt, p.sendOffsetNs) + p.events[i].timestampOffsetNs;
  }

  /** The event a grouped record was built from. */
  lemma RecordSource(p: Packet, address: GoString, receivedAt: Time, table: GoString, x: Record) returns (i: nat)
    requires PacketRecords(p, address, receivedAt).Returns?
    requires table in PacketRecords(p, address, receivedAt).value && x in PacketRecords(p, address, receivedAt).value[table]
    ensures p.startTimestamp.Some? && i < |p.events|
    ensures EventTable(p.events[i]) == table && x == EventRecord(p, address, receivedAt, p.events[i])
  {
    var pairs := Keyed(p, address, receivedAt);
    assert x in Select(pairs, table) by {
      assert PacketRecords(p, address, receivedAt) == Returns(Grouped(pairs));
      GroupedSelect(pairs, table);
    }
    assert exists j :: 0 <= j < |pairs| && pairs[j] == (table, x) by {
      SelectFrom(pairs, table, x);
    }
    var j :| 0 <= j < |pairs| && pairs[j] == (table, x);
    i := j;
  }

  /**
   * Without saturation the correction is the clock skew: an event's time is
   * its time on the sender's clock (start plus offset) plus the correction,
   * and the correction is zero exactly when the packet arrived send-offset
   * after its start.
   */
  lemma CorrectionIsSkew(p: Packet, address: GoString, receivedAt: Time, e: Event)
    requires p.startTimestamp.Some? && p.sendOffsetNs != MinInt64
    requires MinInt64 <= receivedAt - p.sendOffsetNs - AsTime(p.startTimestamp.value) <= MaxInt64
    ensures var x := EventRecord(p, address, receivedAt, e);
      x.timestamp == AsTime(p.startTimestamp.value) + e.timestampOffsetNs + x.correction
      && (x.correction == 0 <==> receivedAt == AsTime(p.startTimestamp.value) + p.sendOffsetNs)
  {
  }

  /** The most negative send offset is negated to itself, so the corrected start lies after, not before, the reception. */
  lemma SmallestOffsetWraps(receivedAt: Time)
    ensures CorrectedStart(receivedAt, MinInt64 as int64) == receivedAt + MinInt64
  {
  }

  /**
   * Receive of the two receiver programs: build the records, then store
   * them table by table in iteration order, the first error ending it.
   * The stored rows of every table of the packet grow by its records
   * when no error is returned, and no other table changes.
   */
  method ReceivePacket(client: InsertClient, p: Packet, address: GoString, receivedAt: Time, order: seq<GoString>)
    returns (r: Outcome<Option<string>>)
    requires client.Valid()
    requires PacketRecords(p, address, receivedAt).Returns? ==> Enumerates(PacketRecords(p, address, receivedAt).value, order)
    modifies client, client.ds
    ensures client.Valid()
    ensures r.Panics? <==> PacketRecords(p, address, receivedAt).Panics?
    ensures r.Panics? ==> client.ds.writes == old(client.ds.writes)
    ensures r.Returns? ==>
      var records := PacketRecords(p, address, receivedAt).value;
      var plan := SinkPlan(records, order, old(client.tables), old(client.ds.tables), client.ServiceFaults(), client.typeOf);
      client.ds.writes == old(client.ds.writes) + plan.writes && (r.value.None? <==> !plan.failed)
      && (forall t :: t !in records ==> client.ds.RowsOf(t) == old(client.ds.RowsOf(t)))
      && (r.value.None? ==> forall t :: t in records ==> client.ds.RowsOf(t) == old(client.ds.RowsOf(t)) + records[t])
  {
    var built := BuildRecords(p, address, receivedAt);
    if built.Panics? {
      return Panics(built.message);
    }
    var records := built.value;
    SinkPlanRows(client.ds.writes, records, order, client.tables, client.ds.tables, client.ServiceFaults(), client.typeOf);
    var err := client.SaveRecord(records, order);
    return Returns(err);
  }

  /** BigQuerySink of eventkitd-bigquery/bigquery/sink.go, with its sent_to_bq counter. */
  class BigQuerySink {
    const client: InsertClient
    /** mon.Counter("sent_to_bq"). */
    var sentToBq: int

    predicate Valid()
      reads this, client, client.ds
    {
      client.Valid()
    }

    /** NewBigQuerySink: a client whose missing tag columns know the Timestamp variant. */
    constructor(ds: Dataset<Record>)
      ensures Valid() && client.ds == ds && client.typeOf == SinkColumnType && client.tables == map[]
      ensures sentToBq == 0
    {
      client := new InsertClient(ds, SinkColumnType);
      sentToBq := 0;
    }

    /**
     * Receive: as the receiver programs', and the counter grows by the
     * packet's events whether or not the save failed; a panic leaves it.
     */
    method Receive(p: Packet, address: GoString, receivedAt: Time, order: seq<GoString>) returns (r: Outcome<Option<string>>)
      requires Valid()
      requires PacketRecords(p, address, receivedAt).Returns? ==> Enumerates(PacketRecords(p, address, receivedAt).value, order)
      modifies this, client, client.ds
      ensures Valid()
      ensures r.Panics? <==> PacketRecords(p, address, receivedAt).Panics?
      ensures r.Panics? ==> client.ds.writes == old(client.ds.writes) && sentToBq == old(sentToBq)
      ensures r.Returns? ==> sentToBq == old(sentToBq) + |p.events|
      ensures r.Returns? ==>
        var records := PacketRecords(p, address, receivedAt).value;
        var plan := SinkPlan(records, order, old(client.tables), old(client.ds.tables), client.ServiceFaults(), client.typeOf);
        client.ds.writes == old(client.ds.writes) + plan.writes && (r.value.None? <==> !plan.failed)
        && (forall t :: t !in records ==> client.ds.RowsOf(t) == old(client.ds.RowsOf(t)))
        && (r.value.None? ==> forall t :: t in records ==> client.ds.RowsOf(t) == old(client.ds.RowsOf(t)) + records[t])
    {
      r := ReceivePacket(client, p, address, receivedAt, order);
      if r.Returns? {
        sentToBq := sentToBq + |p.events|;
      }
    }
  }
}
