/**
 * The events-to-csv utility (eventkitd/utils/events-to-csv/main.go): every
 * stored record becomes a row keyed by column name, the header is the
 * sorted union of all rows' columns, and every row is written as one cell
 * per header column.
 *
 * Walking the directories, opening the files and decoding their record
 * streams are I/O: a file is its path and the records read from it before
 * its end or its first read error.  The CSV quoting of encoding/csv is not
 * modelled; a written line is its list of cells.
 */
module EventsToCsv {
  import opened Wrappers
  import opened Text
  import opened Binary
  import opened Clock
  import opened Pb
  import opened PbUtils
  import Path

  /** A row: column name to cell. */
  type Row = map<GoString, GoString>

  /** A stored record (pb.Record) with the fields the utility reads. */
  datatype StoredRecord = StoredRecord(
    application: GoString,
    applicationVersion: GoString,
    instance: GoString,
    sourceAddr: GoString,
    timestamp: Option<Timestamp>,
    timestampCorrectionNs: int64,
    tags: seq<Tag>)

  /** An event file: its path and the records read from it. */
  datatype EventFile = EventFile(path: GoString, records: seq<StoredRecord>)

  /** fmt.Sprint of a float64, time.Duration.String and time.Time.String, which the model does not spell out. */
  datatype Renderings = Renderings(float: uint64 -> GoString, duration: int64 -> GoString, instant: Time -> GoString)

  const NameCol: GoString := "name"
  const ScopeCol: GoString := "scope"
  const ApplicationCol: GoString := "application"
  const VersionCol: GoString := "version"
  const InstanceCol: GoString := "instance"
  const SourceAddrCol: GoString := "source_addr"
  const TimestampCol: GoString := "timestamp"
  const CorrectionCol: GoString := "timestamp_correction"
  const TagPrefix: GoString := "tag:"

  const ErrUnknownTagType: string := "unknown tag type"

  /**
   * tagValueToString: a rendering per variant; an unset value and the
   * Duration variant fall to the default case and panic.
   */
  function TagValueString(tag: Tag, f: Renderings): (r: Outcome<GoString>)
    ensures r.Panics? <==> tag.value.None? || tag.value.value.DurationValue?
    ensures r.Panics? ==> r.message == ErrUnknownTagType
    ensures tag.value.Some? && tag.value.value.StringValue? ==> r == Returns(tag.value.value.str)
    ensures tag.value.Some? && tag.value.value.Int64Value? ==> r.Returns? && Atoi(r.value) == Some(tag.value.value.i)
    ensures tag.value.Some? && tag.value.value.BytesValue? ==>
      r.Returns? && |r.value| == 2 * |tag.value.value.bytes| && HexDecode(r.value) == Some(tag.value.value.bytes)
  {
    match tag.value
    case None => Panics(ErrUnknownTagType)
    case Some(v) =>
      match v
      case StringValue(s) => Returns(s)
      case Int64Value(i) => ItoaAtoi(i); Returns(Itoa(i))
      case DoubleValue(bits) => Returns(f.float(bits))
      case BoolValue(b) => Returns(if b then True else False)
      case BytesValue(b) => HexRoundTrip(b); Returns(HexEncode(b))
      case DurationNsValue(ns) => Returns(f.duration(ns))
      case TimestampValue(ts) => Returns(f.instant(AsTime(ts)))
      case DurationValue(_) => Panics(ErrUnknownTagType)
  }

  /** The column of a tag: "tag:" and its key. */
  function TagColumn(key: GoString): GoString
  {
    TagPrefix + key
  }

  /** The eight columns every row has, for a record that carries a timestamp. */
  function FixedRow(name: GoString, scope: seq<GoString>, rec: StoredRecord, f: Renderings): Row
    requires rec.timestamp.Some?
  {
    map[NameCol := name, ScopeCol := Path.EncodedScope(scope), ApplicationCol := rec.application,
        VersionCol := rec.applicationVersion, InstanceCol := rec.instance, SourceAddrCol := rec.sourceAddr,
        TimestampCol := f.instant(AsTime(rec.timestamp.value)), CorrectionCol := f.duration(rec.timestampCorrectionNs)]
  }

  /** The tags written into the row in order; the first one that cannot be rendered panics. */
  function WithTags(row: Row, tags: seq<Tag>, f: Renderings): Outcome<Row>
    decreases |tags|
  {
    if tags == [] then Returns(row)
    else
      var tag := tags[|tags| - 1];
      match WithTags(row, tags[..|tags| - 1], f)
      case Panics(m) => Panics(m)
      case Returns(r) =>
        match TagValueString(tag, f)
        case Panics(m) => Panics(m)
        case Returns(v) => Returns(r[TagColumn(tag.key) := v])
  }

  /**
   * The row recordToRow builds for one record of the file of `name` and
   * `scope`.  A record without a timestamp panics before any tag is read:
   * Timestamp.AsTime reads the seconds through the nil pointer.
   */
  function RowOf(name: GoString, scope: seq<GoString>, rec: StoredRecord, f: Renderings): Outcome<Row>
  {
    if rec.timestamp.None? then Panics(ErrNilDereference)
    else WithTags(FixedRow(name, scope, rec, f), rec.tags, f)
  }

  /** Once a prefix of the tags panics, so do all of them, with the same message. */
  lemma {:induction false} WithTagsPrefixPanics(row: Row, tags: seq<Tag>, n: nat, f: Renderings)
    requires n <= |tags| && WithTags(row, tags[..n], f).Panics?
    ensures WithTags(row, tags, f) == WithTags(row, tags[..n], f)
    decreases |tags| - n
  {
    if n < |tags| {
      assert tags[..n + 1][..n] == tags[..n];
      WithTagsPrefixPanics(row, tags, n + 1, f);
    } else {
      assert tags[..n] == tags;
    }
  }

  /** recordToRow: the eight fixed columns, then one "tag:" column per tag, the later of two equal keys winning. */
  method RecordToRow(name: GoString, scope: seq<GoString>, rec: StoredRecord, f: Renderings) returns (r: Outcome<Row>)
    ensures r == RowOf(name, scope, rec, f)
  {
    var rv: Row := map[];
    rv := rv[NameCol := name];
    var encoded := Path.EncodeScope(scope);
    rv := rv[ScopeCol := encoded];
    rv := rv[ApplicationCol := rec.application];
    rv := rv[VersionCol := rec.applicationVersion];
    rv := rv[InstanceCol := rec.instance];
    rv := rv[SourceAddrCol := rec.sourceAddr];
    if rec.timestamp.None? {
      return Panics(ErrNilDereference);
    }
    rv := rv[TimestampCol := f.instant(AsTime(rec.timestamp.value))];
    rv := rv[CorrectionCol := f.duration(rec.timestampCorrectionNs)];
    ghost var fixed := FixedRow(name, scope, rec, f);
    assert rv == fixed;
    assert rec.tags[..0] == [];
    for i := 0 to |rec.tags|
      invariant WithTags(fixed, rec.tags[..i], f) == Returns(rv)
    {
      assert rec.tags[..i + 1][..i] == rec.tags[..i];
      var tag := rec.tags[i];
      var v := TagValueString(tag, f);
      if v.Panics? {
        WithTagsPrefixPanics(fixed, rec.tags, i + 1, f);
        return Panics(v.message);
      }
      rv := rv[TagColumn(tag.key) := v.value];
    }
    assert rec.tags[..|rec.tags|] == rec.tags;
    return Returns(rv);
  }

  /** A record's row panics exactly when one of its tags cannot be rendered. */
  lemma {:induction false} WithTagsPanics(row: Row, tags: seq<Tag>, f: Renderings)
    ensures WithTags(row, tags, f).Panics? <==> exists j :: 0 <= j < |tags| && TagValueString(tags[j], f).Panics?
    decreases |tags|
  {
    if tags != [] {
      var n := |tags| - 1;
      WithTagsPanics(row, tags[..n], f);
      if WithTags(row, tags[..n], f).Panics? {
        var j :| 0 <= j < n && TagValueString(tags[..n][j], f).Panics?;
        assert tags[j] == tags[..n][j];
      } else if TagValueString(tags[n], f).Returns? {
        forall j | 0 <= j < |tags| ensures TagValueString(tags[j], f).Returns? {
          if j < n {
            assert tags[j] == tags[..n][j];
          }
        }
      }
    }
  }

  /**
   * A record's row panics exactly when it has no timestamp or one of its
   * tags cannot be rendered, and a missing timestamp wins over any tag.
   */
  lemma RowPanics(name: GoString, scope: seq<GoString>, rec: StoredRecord, f: Renderings)
    ensures RowOf(name, scope, rec, f).Panics? <==>
      rec.timestamp.None? || exists j :: 0 <= j < |rec.tags| && TagValueString(rec.tags[j], f).Panics?
    ensures rec.timestamp.None? ==> RowOf(name, scope, rec, f) == Panics(ErrNilDereference)
  {
    if rec.timestamp.Some? {
      WithTagsPanics(FixedRow(name, scope, rec, f), rec.tags, f);
    }
  }

  /** No tag column is one of the eight fixed columns. */
  lemma TagColumnNotFixed(key: GoString)
    ensures TagColumn(key) !in {NameCol, ScopeCol, ApplicationCol, VersionCol, InstanceCol, SourceAddrCol, TimestampCol, CorrectionCol}
  {
    var c := TagColumn(key);
    assert c[0] == 't' && c[1] == 'a' && c[2] == 'g' && c[3] == ':';
    assert NameCol[0] == 'n' && ScopeCol[0] == 's' && ApplicationCol[0] == 'a' && VersionCol[0] == 'v';
    assert InstanceCol[0] == 'i' && SourceAddrCol[0] == 's';
    assert TimestampCol[1] == 'i' && CorrectionCol[1] == 'i';
  }

  /** Distinct keys have distinct columns. */
  lemma TagColumnInjective(a: GoString, b: GoString)
    requires TagColumn(a) == TagColumn(b)
    ensures a == b
  {
    assert a == TagColumn(a)[|TagPrefix|..];
    assert b == TagColumn(b)[|TagPrefix|..];
  }

  /** Writing tags never touches a column that is not a tag column. */
  lemma {:induction false} WithTagsKeepsOthers(row: Row, tags: seq<Tag>, f: Renderings, c: GoString)
    requires WithTags(row, tags, f).Returns?
    requires forall k :: c != TagColumn(k)
    ensures (c in WithTags(row, tags, f).value <==> c in row)
    ensures c in row ==> WithTags(row, tags, f).value[c] == row[c]
    decreases |tags|
  {
    if tags != [] {
      WithTagsKeepsOthers(row, tags[..|tags| - 1], f, c);
    }
  }

  /** Every row carries the eight fixed columns with the record's own values. */
  lemma FixedColumns(name: GoString, scope: seq<GoString>, rec: StoredRecord, f: Renderings)
    requires RowOf(name, scope, rec, f).Returns?
    ensures var row := RowOf(name, scope, rec, f).value;
      NameCol in row && row[NameCol] == name
      && ScopeCol in row && row[ScopeCol] == Path.EncodedScope(scope)
      && ApplicationCol in row && row[ApplicationCol] == rec.application
      && VersionCol in row && row[VersionCol] == rec.applicationVersion
      && InstanceCol in row && row[InstanceCol] == rec.instance
      && SourceAddrCol in row && row[SourceAddrCol] == rec.sourceAddr
      && rec.timestamp.Some?
      && TimestampCol in row && row[TimestampCol] == f.instant(AsTime(rec.timestamp.value))
      && CorrectionCol in row && row[CorrectionCol] == f.duration(rec.timestampCorrectionNs)
  {
    var fixed := FixedRow(name, scope, rec, f);
    forall k ensures TagColumn(k) !in {NameCol, ScopeCol, ApplicationCol, VersionCol, InstanceCol, SourceAddrCol, TimestampCol, CorrectionCol} {
      TagColumnNotFixed(k);
    }
    WithTagsKeepsOthers(fixed, rec.tags, f, NameCol);
    WithTagsKeepsOthers(fixed, rec.tags, f, ScopeCol);
    WithTagsKeepsOthers(fixed, rec.tags, f, ApplicationCol);
    WithTagsKeepsOthers(fixed, rec.tags, f, VersionCol);
    WithTagsKeepsOthers(fixed, rec.tags, f, InstanceCol);
    WithTagsKeepsOthers(fixed, rec.tags, f, SourceAddrCol);
    WithTagsKeepsOthers(fixed, rec.tags, f, TimestampCol);
    WithTagsKeepsOthers(fixed, rec.tags, f, CorrectionCol);
  }

  /** A tag column holds the rendering of the last tag with that key. */
  lemma {:induction false} TagColumnLastWins(row: Row, tags: seq<Tag>, f: Renderings, j: int)
    requires WithTags(row, tags, f).Returns? && 0 <= j < |tags|
    requires forall l :: j < l < |tags| ==> tags[l].key != tags[j].key
    ensures TagValueString(tags[j], f).Returns?
    ensures TagColumn(tags[j].key) in WithTags(row, tags, f).value
    ensures WithTags(row, tags, f).value[TagColumn(tags[j].key)] == TagValueString(tags[j], f).value
    decreases |tags|
  {
    var n := |tags| - 1;
    if j < n {
      assert tags[..n][j] == tags[j];
      forall l | j < l < n ensures tags[..n][l].key != tags[..n][j].key {
        assert tags[..n][l] == tags[l];
      }
      TagColumnLastWins(row, tags[..n], f, j);
      if TagColumn(tags[n].key) == TagColumn(tags[j].key) {
        TagColumnInjective(tags[n].key, tags[j].key);
      }
    }
  }

  /** The rows of one file: none when its path does not parse as an event file. */
  function RowsOf(name: GoString, scope: seq<GoString>, records: seq<StoredRecord>, f: Renderings): (r: Outcome<seq<Row>>)
    ensures r.Returns? ==> |r.value| == |records|
    decreases |records|
  {
    if records == [] then Returns([])
    else
      match RowsOf(name, scope, records[..|records| - 1], f)
      case Panics(m) => Panics(m)
      case Returns(rows) =>
        match RowOf(name, scope, records[|records| - 1], f)
        case Panics(m) => Panics(m)
        case Returns(row) => Returns(rows + [row])
  }

  function FileRows(file: EventFile, f: Renderings): Outcome<seq<Row>>
  {
    match Path.Parsed(file.path)
    case Err(_) => Returns([])
    case Ok(parsed) => RowsOf(parsed.0, parsed.1, file.records, f)
  }

  /** The rows of all files, file after file, record after record; the first panic ends the run. */
  function AllRows(files: seq<EventFile>, f: Renderings): Outcome<seq<Row>>
    decreases |files|
  {
    if files == [] then Returns([])
    else
      match AllRows(files[..|files| - 1], f)
      case Panics(m) => Panics(m)
      case Returns(rows) =>
        match FileRows(files[|files| - 1], f)
        case Panics(m) => Panics(m)
        case Returns(more) => Returns(rows + more)
  }

  /** The rows of a file are its records' rows, in the order they were read. */
  lemma {:induction false} RowsInOrder(name: GoString, scope: seq<GoString>, records: seq<StoredRecord>, f: Renderings, i: int)
    requires RowsOf(name, scope, records, f).Returns? && 0 <= i < |records|
    ensures RowOf(name, scope, records[i], f).Returns?
    ensures RowsOf(name, scope, records, f).value[i] == RowOf(name, scope, records[i], f).value
    decreases |records|
  {
    var n := |records| - 1;
    if i < n {
      assert records[..n][i] == records[i];
      RowsInOrder(name, scope, records[..n], f, i);
    }
  }

  /** Every column some row has. */
  ghost function Columns(rows: seq<Row>): set<GoString>
  {
    set i, k | 0 <= i < |rows| && k in rows[i] :: k
  }

  predicate StrictlySorted(xs: seq<GoString>)
  {
    forall i, j :: 0 <= i < j < |xs| ==> Less(xs[i], xs[j])
  }

  /** `x` put into its place in a sorted list of distinct strings. */
  function Insert(xs: seq<GoString>, x: GoString): (r: seq<GoString>)
    requires StrictlySorted(xs)
    ensures StrictlySorted(r)
    ensures forall y :: y in r <==> y in xs || y == x
    decreases |xs|
  {
    if xs == [] then [x]
    else if x == xs[0] then xs
    else if Less(x, xs[0]) then
      assert forall j :: 0 < j < |xs| ==> Less(x, xs[j]) by {
        forall j | 0 < j < |xs| ensures Less(x, xs[j]) { LessTransitive(x, xs[0], xs[j]); }
      }
      [x] + xs
    else
      var rest := Insert(xs[1..], x);
      assert Less(xs[0], x) by { LessTotal(x, xs[0]); }
      assert forall y :: y in rest ==> Less(xs[0], y) by {
        forall y | y in rest ensures Less(xs[0], y) {
          if y != x {
            var j :| 0 <= j < |xs[1..]| && xs[1..][j] == y;
            assert xs[j + 1] == y;
          }
        }
      }
      [xs[0]] + rest
  }

  /** The header: every column once, sorted (a loop over Go's map of columns, then sort.Strings). */
  method Header(rows: seq<Row>) returns (headerVals: seq<GoString>)
    ensures StrictlySorted(headerVals)
    ensures forall c :: c in headerVals <==> c in Columns(rows)
  {
    var header: map<GoString, GoString> := map[];
    for i := 0 to |rows|
      invariant header.Keys == Columns(rows[..i])
    {
      assert Columns(rows[..i + 1]) == Columns(rows[..i]) + rows[i].Keys by {
        assert forall l :: 0 <= l < i ==> rows[..i + 1][l] == rows[..i][l];
        assert rows[..i + 1][i] == rows[i];
      }
      header := header + map k | k in rows[i] :: [];
    }
    assert rows[..|rows|] == rows;
    headerVals := [];
    var remaining := header.Keys;
    while remaining != {}
      invariant StrictlySorted(headerVals)
      invariant forall c :: c in header <==> c in headerVals || c in remaining
      decreases |remaining|
    {
      var field :| field in remaining;
      headerVals := Insert(headerVals, field);
      remaining := remaining - {field};
    }
  }

  /** The cell of a row under a column: Go's map lookup gives "" for a column the row lacks. */
  function Cell(row: Row, field: GoString): GoString
  {
    if field in row then row[field] else []
  }

  /** One line per row, in row order, each with one cell per header column. */
  predicate Projected(headerVals: seq<GoString>, rows: seq<Row>, lines: seq<seq<GoString>>)
  {
    |lines| == |rows|
    && (forall r :: 0 <= r < |rows| ==> |lines[r]| == |headerVals|)
    && (forall r, c :: 0 <= r < |rows| && 0 <= c < |headerVals| ==> lines[r][c] == Cell(rows[r], headerVals[c]))
  }

  /** The written lines: one per row, in row order, one cell per header column. */
  method Project(headerVals: seq<GoString>, rows: seq<Row>) returns (lines: seq<seq<GoString>>)
    ensures Projected(headerVals, rows, lines)
  {
    lines := [];
    for r := 0 to |rows|
      invariant |lines| == r
      invariant forall l :: 0 <= l < r ==> |lines[l]| == |headerVals|
      invariant forall l, c :: 0 <= l < r && 0 <= c < |headerVals| ==> lines[l][c] == Cell(rows[l], headerVals[c])
    {
      var vals: seq<GoString> := [];
      for c := 0 to |headerVals|
        invariant |vals| == c
        invariant forall d :: 0 <= d < c ==> vals[d] == Cell(rows[r], headerVals[d])
      {
        vals := vals + [Cell(rows[r], headerVals[c])];
      }
      lines := lines + [vals];
    }
  }

  /** Nothing is lost: every cell of every row appears in its line, under its column. */
  lemma NothingLost(headerVals: seq<GoString>, rows: seq<Row>, lines: seq<seq<GoString>>, r: int, k: GoString)
    requires forall c :: c in headerVals <==> c in Columns(rows)
    requires Projected(headerVals, rows, lines)
    requires 0 <= r < |rows| && k in rows[r]
    ensures exists c :: 0 <= c < |headerVals| && headerVals[c] == k && lines[r][c] == rows[r][k]
  {
    assert k in Columns(rows);
    var c :| 0 <= c < |headerVals| && headerVals[c] == k;
    assert lines[r][c] == rows[r][k];
  }

  /**
   * main: the rows of every file whose path parses, the sorted header,
   * then one line per row; a tag that cannot be rendered panics the run.
   */
  method Convert(files: seq<EventFile>, f: Renderings) returns (out: Outcome<seq<seq<GoString>>>)
    ensures AllRows(files, f).Panics? ==> out == Panics(AllRows(files, f).message)
    ensures AllRows(files, f).Returns? ==>
      var rows := AllRows(files, f).value;
      out.Returns? && |out.value| == |rows| + 1
      && StrictlySorted(out.value[0])
      && (forall c :: c in out.value[0] <==> c in Columns(rows))
      && Projected(out.value[0], rows, out.value[1..])
  {
    var rows := CollectRows(files, f);
    if rows.Panics? {
      return Panics(rows.message);
    }
    var headerVals := Header(rows.value);
    var lines := Project(headerVals, rows.value);
    out := Returns([headerVals] + lines);
    assert out.value[0] == headerVals && out.value[1..] == lines;
  }

  /** The walk over the files: their rows, file after file. */
  method CollectRows(files: seq<EventFile>, f: Renderings) returns (r: Outcome<seq<Row>>)
    ensures r == AllRows(files, f)
  {
    var rows: seq<Row> := [];
    for i := 0 to |files|
      invariant AllRows(files[..i], f) == Returns(rows)
    {
      assert files[..i + 1][..i] == files[..i];
      var more := ReadFile(files[i], f);
      if more.Panics? {
        AllRowsPrefixPanics(files, i + 1, f);
        return Panics(more.message);
      }
      rows := rows + more.value;
    }
    assert files[..|files|] == files;
    return Returns(rows);
  }

  /** The records of one file made rows, unless its path does not parse. */
  method ReadFile(file: EventFile, f: Renderings) returns (r: Outcome<seq<Row>>)
    ensures r == FileRows(file, f)
  {
    var parsed := Path.Parse(file.path);
    if parsed.Err? {
      return Returns([]);
    }
    r := ReadRecords(parsed.value.0, parsed.value.1, file.records, f);
  }

  /** The loop over a file's records: one row each, in order. */
  method ReadRecords(name: GoString, scope: seq<GoString>, records: seq<StoredRecord>, f: Renderings)
    returns (r: Outcome<seq<Row>>)
    ensures r == RowsOf(name, scope, records, f)
  {
    var rows: seq<Row> := [];
    for i := 0 to |records|
      invariant RowsOf(name, scope, records[..i], f) == Returns(rows)
    {
      assert records[..i + 1][..i] == records[..i];
      var row := RecordToRow(name, scope, records[i], f);
      if row.Panics? {
        RowsPrefixPanics(name, scope, records, i + 1, f);
        return Panics(row.message);
      }
      rows := rows + [row.value];
    }
    assert records[..|records|] == records;
    return Returns(rows);
  }

  lemma {:induction false} RowsPrefixPanics(name: GoString, scope: seq<GoString>, records: seq<StoredRecord>, n: nat, f: Renderings)
    requires n <= |records| && RowsOf(name, scope, records[..n], f).Panics?
    ensures RowsOf(name, scope, records, f) == RowsOf(name, scope, records[..n], f)
    decreases |records| - n
  {
    if n < |records| {
      assert records[..n + 1][..n] == records[..n];
      RowsPrefixPanics(name, scope, records, n + 1, f);
    } else {
      assert records[..n] == records;
    }
  }

  lemma {:induction false} AllRowsPrefixPanics(files: seq<EventFile>, n: nat, f: Renderings)
    requires n <= |files| && AllRows(files[..n], f).Panics?
    ensures AllRows(files, f) == AllRows(files[..n], f)
    decreases |files| - n
  {
    if n < |files| {
      assert files[..n + 1][..n] == files[..n];
      AllRowsPrefixPanics(files, n + 1, f);
    } else {
      assert files[..n] == files;
    }
  }
}
