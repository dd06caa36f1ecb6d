/**
 * BigQueryDestination of eventkitd-bigquery/bigquery/destination.go: an
 * eventkit destination that stores every submitted event at once, through
 * the insertAll client of eventkitd-bigquery/bigquery/client.go.
 *
 * Unlike bigquery/destination.go, the record is filed under the event's
 * bare name, not under the table name built from its scope and name, and
 * there is no closed state.  The clock reading is a parameter; a failed
 * save is printed, which the model keeps as the list of warnings.
 */
module SinkDestination {
  import opened Wrappers
  import opened Text
  import opened Clock
  import opened BqRemote
  import opened BqRecord
  import opened InsertSink
  import BqNaming
  import Pb
  import Client

  const Version: GoString := "0.0.1"
  const Address: GoString := "0.0.0.0"

  /** The record of a submitted event, read from the clock at `now`. */
  function EventRecord(appName: GoString, instance: GoString, now: Time, ev: Client.ClientEvent): Record
  {
    Record(appName, Version, instance, Address, now, ev.timestamp, 0, ev.tags)
  }

  /** Saving a one-table map is the table's own plan. */
  lemma SingleTablePlan(table: GoString, batch: seq<Record>, cache: map<GoString, TableMetadata>,
                        remote: map<GoString, TableMetadata>, faults: Faults, typeOf: Option<Pb.TagValue> -> Option<BqNaming.FieldType>)
    ensures SinkPlan(map[table := batch], [table], cache, remote, faults, typeOf)
      == InsertPlan(table, batch, Cached(cache, table), Cached(remote, table), faults, typeOf)
  {
    var p := InsertPlan(table, batch, Cached(cache, table), Cached(remote, table), faults, typeOf);
    assert [table][1..] == [];
    if !p.failed {
      assert p.writes + [] == p.writes;
    }
  }

  class BigQueryDestination {
    const client: InsertClient
    const appName: GoString
    /** SourceInstance: the host name, or empty when it cannot be read. */
    const sourceInstance: GoString
    /** The errors Submit printed, in order. */
    var warnings: seq<string>

    predicate Valid()
      reads this, client, client.ds
    {
      client.Valid()
    }

    /** NewBigQueryDestination over a fresh client; `hostname` is os.Hostname's outcome. */
    constructor(ds: Dataset<Record>, appName: GoString, hostname: Option<GoString>)
      ensures Valid() && fresh(client) && client.ds == ds && client.typeOf == SinkColumnType && client.tables == map[]
      ensures this.appName == appName && sourceInstance == (if hostname.Some? then hostname.value else [])
      ensures warnings == []
    {
      client := new InsertClient(ds, SinkColumnType);
      this.appName := appName;
      sourceInstance := if hostname.Some? then hostname.value else [];
      warnings := [];
    }

    /**
     * Submit: the event's record is saved under the event's name; when the
     * save succeeds that table's rows grow by exactly this record and no
     * other table changes, and a failure is printed rather than returned.
     */
    method Submit(event: Client.ClientEvent, now: Time)
      requires Valid()
      modifies this, client, client.ds
      ensures Valid()
      ensures var plan := InsertPlan(event.name, [EventRecord(appName, sourceInstance, now, event)],
          Cached(old(client.tables), event.name), Cached(old(client.ds.tables), event.name), client.ServiceFaults(), client.typeOf);
        client.ds.writes == old(client.ds.writes) + plan.writes
        && (plan.failed <==> warnings != old(warnings))
        && (plan.failed ==> |warnings| == |old(warnings)| + 1)
      ensures warnings == old(warnings) ==>
        client.ds.RowsOf(event.name) == old(client.ds.RowsOf(event.name)) + [EventRecord(appName, sourceInstance, now, event)]
      ensures forall t :: t != event.name ==> client.ds.RowsOf(t) == old(client.ds.RowsOf(t))
    {
      var record := Record(appName, Version, sourceInstance, Address, now, event.timestamp, 0, event.tags);
      var records := map[event.name := [record]];
      SingleTablePlan(event.name, [record], client.tables, client.ds.tables, client.ServiceFaults(), client.typeOf);
      SinkPlanRows(client.ds.writes, records, [event.name], client.tables, client.ds.tables, client.ServiceFaults(), client.typeOf);
      var err := client.SaveRecord(records, [event.name]);
      if err.Some? {
        warnings := warnings + [err.value];
      }
    }
  }
}
