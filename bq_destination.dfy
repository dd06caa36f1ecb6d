/**
 * BigQueryDestination of bigquery/destination.go: an eventkit destination
 * that stores each submitted batch of events directly, through the
 * BigQueryClient of bigquery/client.go, grouped by table.
 *
 * Each record is stamped with the application's name, version "0.0.1",
 * the host name as instance, address "0.0.0.0", a zero correction and the
 * clock reading taken for it.  The clock readings and Go's map iteration
 * order are parameters; a failed save is printed, which the model keeps
 * as the list of warnings.
 */
module BqDestination {
  import opened Wrappers
  import opened Text
  import opened Clock
  import opened Pb
  import opened BqNaming
  import opened BqRemote
  import opened BqRecord
  import opened Grouping
  import Client
  import opened BqClient

  const Version: GoString := "0.0.1"
  const Address: GoString := "0.0.0.0"

  /** The record of one submitted event, read from the clock at `now`. */
  function DestinationRecord(appName: GoString, instance: GoString, now: Time, ev: Client.ClientEvent): Record
  {
    Record(appName, Version, instance, Address, now, ev.timestamp, 0, ev.tags)
  }

  /** The events' records, each under TableName of its scope and name, in submission order. */
  function Keyed(appName: GoString, instance: GoString, clock: seq<Time>, events: seq<Client.ClientEvent>): (pairs: seq<(GoString, Record)>)
    requires |clock| == |events|
    ensures |pairs| == |events|
  {
    seq(|events|, i requires 0 <= i < |events| =>
      (TableName(events[i].scope, events[i].name), DestinationRecord(appName, instance, clock[i], events[i])))
  }

  /** The records map Submit builds. */
  function SubmitRecords(appName: GoString, instance: GoString, clock: seq<Time>, events: seq<Client.ClientEvent>): map<GoString, seq<Record>>
    requires |clock| == |events|
  {
    Grouped(Keyed(appName, instance, clock, events))
  }

  /** The building loop of Submit. */
  method BuildRecords(appName: GoString, instance: GoString, clock: seq<Time>, events: seq<Client.ClientEvent>)
    returns (records: map<GoString, seq<Record>>)
    requires |clock| == |events|
    ensures records == SubmitRecords(appName, instance, clock, events)
  {
    records := map[];
    for i := 0 to |events|
      invariant records == Grouped(Keyed(appName, instance, clock, events)[..i])
    {
      var event := events[i];
      var tableName := TableName(event.scope, event.name);
      var record := Record(appName, Version, instance, Address, clock[i], event.timestamp, 0, event.tags);
      assert record == DestinationRecord(appName, instance, clock[i], event);
      GroupedSnoc(Keyed(appName, instance, clock, events), i);
      records := Appended(records, tableName, record);
    }
    assert Keyed(appName, instance, clock, events)[..|events|] == Keyed(appName, instance, clock, events);
  }

  /**
   * A table has a list exactly when a submitted event maps to it, and the
   * list holds that table's records in submission order.
   */
  lemma SubmitRecordsGroups(appName: GoString, instance: GoString, clock: seq<Time>, events: seq<Client.ClientEvent>, table: GoString)
    requires |clock| == |events|
    ensures var r := SubmitRecords(appName, instance, clock, events);
      (table in r <==> exists i :: 0 <= i < |events| && TableName(events[i].scope, events[i].name) == table)
      && (table in r ==> r[table] == Select(Keyed(appName, instance, clock, events), table))
  {
    var pairs := Keyed(appName, instance, clock, events);
    var r := Grouped(pairs);
    assert (table in r <==> exists i :: 0 <= i < |pairs| && pairs[i].0 == table)
      && (table in r ==> r[table] == Select(pairs, table)) by {
      GroupedSelect(pairs, table);
    }
    if table in r {
      var i :| 0 <= i < |pairs| && pairs[i].0 == table;
      assert TableName(events[i].scope, events[i].name) == table;
    }
    if i :| 0 <= i < |events| && TableName(events[i].scope, events[i].name) == table {
      assert pairs[i].0 == table;
    }
  }

  /**
   * Every stored record is one of the submitted events of its table, with
   * the event's timestamp and tags, the clock reading taken for it, version
   * "0.0.1", address "0.0.0.0" and no correction.
   */
  lemma SubmitRecordsFields(appName: GoString, instance: GoString, clock: seq<Time>, events: seq<Client.ClientEvent>,
                            table: GoString, x: Record)
    requires |clock| == |events|
    requires table in SubmitRecords(appName, instance, clock, events) && x in SubmitRecords(appName, instance, clock, events)[table]
    ensures x.appName == appName && x.appVersion == "0.0.1" && x.instance == instance
    ensures x.address == "0.0.0.0" && x.correction == 0
    ensures exists i :: (0 <= i < |events| && TableName(events[i].scope, events[i].name) == table
      && x.receivedAt == clock[i] && x.timestamp == events[i].timestamp && x.tags == events[i].tags)
  {
    var pairs := Keyed(appName, instance, clock, events);
    assert x in Select(pairs, table) by {
      GroupedSelect(pairs, table);
    }
    assert exists j :: 0 <= j < |pairs| && pairs[j] == (table, x) by {
      SelectFrom(pairs, table, x);
    }
    var j :| 0 <= j < |pairs| && pairs[j] == (table, x);
    assert x == DestinationRecord(appName, instance, clock[j], events[j]);
  }

  /** Every submitted event is stored once: the lists' lengths count the events of each table. */
  lemma SubmitRecordsCount(appName: GoString, instance: GoString, clock: seq<Time>, events: seq<Client.ClientEvent>, table: GoString)
    requires |clock| == |events|
    ensures var r := SubmitRecords(appName, instance, clock, events);
      |if table in r then r[table] else []| == |set i | 0 <= i < |events| && TableName(events[i].scope, events[i].name) == table|
  {
    var pairs := Keyed(appName, instance, clock, events);
    var r := Grouped(pairs);
    assert (if table in r then r[table] else []) == Select(pairs, table) by {
      GroupedSelect(pairs, table);
    }
    var byPair := set i | 0 <= i < |pairs| && pairs[i].0 == table;
    var byEvent := set i | 0 <= i < |events| && TableName(events[i].scope, events[i].name) == table;
    assert |Select(pairs, table)| == |byPair| by {
      SelectCount(pairs, table);
    }
    assert byPair == byEvent by {
      KeyedTables(appName, instance, clock, events, table);
    }
  }

  lemma KeyedTables(appName: GoString, instance: GoString, clock: seq<Time>, events: seq<Client.ClientEvent>, table: GoString)
    requires |clock| == |events|
    ensures var pairs := Keyed(appName, instance, clock, events);
      (set i | 0 <= i < |pairs| && pairs[i].0 == table) == (set i | 0 <= i < |events| && TableName(events[i].scope, events[i].name) == table)
  {
    var pairs := Keyed(appName, instance, clock, events);
    forall i | 0 <= i < |pairs| ensures pairs[i].0 == TableName(events[i].scope, events[i].name) {
    }
  }

  class BigQueryDestination {
    const client: BigQueryClient
    const appName: GoString
    /** SourceInstance: the host name, or empty when it cannot be read. */
    const sourceInstance: GoString
    var closed: bool
    /** The errors Submit printed, in order. */
    var warnings: seq<string>

    predicate Valid()
      reads this, client, client.ds
    {
      client.Valid()
    }

    /** NewBigQueryDestination over a fresh client; `hostname` is os.Hostname's outcome. */
    constructor(ds: Dataset<Record>, format: Time -> GoString, appName: GoString, hostname: Option<GoString>)
      ensures Valid() && fresh(client) && client.ds == ds && client.tables == map[] && client.streams == {}
      ensures this.appName == appName && sourceInstance == (if hostname.Some? then hostname.value else [])
      ensures !closed && warnings == []
    {
      client := new BigQueryClient(ds, format);
      this.appName := appName;
      sourceInstance := if hostname.Some? then hostname.value else [];
      closed := false;
      warnings := [];
    }

    /**
     * Submit: nothing once closed; otherwise the records of all events are
     * saved, every table's rows growing by its records when the save
     * succeeds, and a failure is printed rather than returned.
     */
    method Submit(events: seq<Client.ClientEvent>, clock: seq<Time>, order: seq<GoString>)
      requires Valid() && |clock| == |events|
      requires Enumerates(SubmitRecords(appName, sourceInstance, clock, events), order)
      modifies this, client, client.ds
      ensures Valid() && closed == old(closed)
      ensures old(closed) ==> unchanged(this) && unchanged(client) && unchanged(client.ds)
      ensures !old(closed) ==>
        var records := SubmitRecords(appName, sourceInstance, clock, events);
        var plan := RecordsPlan(records, order, old(client.tables), old(client.ds.tables), client.Environment());
        client.ds.writes == old(client.ds.writes) + plan.writes
        && (plan.failed <==> |warnings| == |old(warnings)| + 1)
        && (!plan.failed ==> warnings == old(warnings))
        && (forall t :: t !in records ==> client.ds.RowsOf(t) == old(client.ds.RowsOf(t)))
        && (!plan.failed ==> forall t :: t in records ==> client.ds.RowsOf(t) == old(client.ds.RowsOf(t)) + records[t])
    {
      if closed {
        return;
      }
      var records := BuildRecords(appName, sourceInstance, clock, events);
      var err := client.SaveRecord(records, order);
      if err.Some? {
        warnings := warnings + [err.value];
      }
    }

    /** Run's shutdown (after the context ends): closed for good and the client closed. */
    method Run()
      requires Valid()
      modifies this, client
      ensures Valid() && closed && client.streams == {} && client.tables == old(client.tables)
      ensures warnings == old(warnings)
    {
      closed := true;
      client.Close();
    }
  }
}
