/**
 * The naming rules every BigQuery writer of the pipeline shares: the table
 * an event goes to, the column a tag goes to, whether a tag lacks a column,
 * and the columns appended for the tags that lack one.  The same code
 * appears in bigquery/schema.go, bigquery/client.go,
 * eventkitd-bigquery/bigquery/client.go, eventkitd-bigquery/main.go and
 * cmd/eventkitd-sink-bigquery/main.go; the copies differ only in how they
 * type a column for a tag variant they do not know, which is a parameter
 * here.
 */
module BqNaming {
  import opened Wrappers
  import opened Text
  import opened Pb

  // ---------------------------------------------------------- table names

  /** The characters of `s` that are ASCII letters or digits, in order. */
  function Alnums(s: GoString): (r: GoString)
    ensures |r| <= |s|
    decreases |s|
  {
    if s == [] then [] else (if IsAlnum(s[0]) then [s[0]] else []) + Alnums(s[1..])
  }

  lemma {:induction false} AlnumsAppend(s: GoString, t: GoString)
    ensures Alnums(s + t) == Alnums(s) + Alnums(t)
    decreases |s|
  {
    if s == [] {
      assert s + t == t;
    } else {
      var h := if IsAlnum(s[0]) then [s[0]] else [];
      assert (s + t)[0] == s[0] && (s + t)[1..] == s[1..] + t;
      assert Alnums(s + t) == h + Alnums(s[1..] + t);
      AlnumsAppend(s[1..], t);
      assert h + (Alnums(s[1..]) + Alnums(t)) == (h + Alnums(s[1..])) + Alnums(t);
    }
  }

  /** Only letters, digits and '_'. */
  predicate TableChars(s: GoString)
  {
    forall i :: 0 <= i < |s| ==> IsAlnum(s[i]) || s[i] == '_'
  }

  /** No '_' directly followed by another. */
  predicate NoDoubleUnderscore(s: GoString)
  {
    forall i :: 0 <= i < |s| - 1 ==> !(s[i] == '_' && s[i + 1] == '_')
  }

  /** `s` without its leading characters outside [a-zA-Z0-9]. */
  function DropUnsafe(s: GoString): (r: GoString)
    ensures |r| <= |s| && r == s[|s| - |r|..]
    ensures r == [] || IsAlnum(r[0])
    ensures Alnums(r) == Alnums(s)
  {
    if s != [] && !IsAlnum(s[0]) then DropUnsafe(s[1..]) else s
  }

  /** The regular expression `[^a-zA-Z0-9]+` replaced by "_": every run of other characters becomes one '_'. */
  function ReplaceUnsafe(s: GoString): GoString
    decreases |s|
  {
    if s == [] then []
    else if IsAlnum(s[0]) then [s[0]] + ReplaceUnsafe(s[1..])
    else "_" + ReplaceUnsafe(DropUnsafe(s[1..]))
  }

  /** A sanitised segment has only letters, digits and '_', and the letters and digits it started with. */
  lemma {:induction false} ReplaceUnsafeShape(s: GoString)
    ensures TableChars(ReplaceUnsafe(s)) && Alnums(ReplaceUnsafe(s)) == Alnums(s)
    decreases |s|
  {
    if s != [] {
      var rest := if IsAlnum(s[0]) then s[1..] else DropUnsafe(s[1..]);
      var h := if IsAlnum(s[0]) then [s[0]] else "_";
      ReplaceUnsafeShape(rest);
      var c := ReplaceUnsafe(rest);
      assert ReplaceUnsafe(s) == h + c;
      assert forall i :: 0 <= i < |h + c| ==> (h + c)[i] == if i == 0 then h[0] else c[i - 1];
      AlnumsAppend(h, c);
      assert Alnums(s) == Alnums([s[0]]) + Alnums(s[1..]) by {
        assert s == [s[0]] + s[1..];
        AlnumsAppend([s[0]], s[1..]);
      }
    }
  }

  /** A segment of letters and digits only is kept as it is. */
  lemma {:induction false} ReplaceUnsafePlain(s: GoString)
    requires forall i :: 0 <= i < |s| ==> IsAlnum(s[i])
    ensures ReplaceUnsafe(s) == s
    decreases |s|
  {
    if s != [] {
      ReplaceUnsafePlain(s[1..]);
      assert s == [s[0]] + s[1..];
    }
  }

  /** `s` without its leading '_'. */
  function DropUnderscores(s: GoString): (r: GoString)
    ensures |r| <= |s| && r == s[|s| - |r|..]
    ensures r == [] || r[0] != '_'
    ensures Alnums(r) == Alnums(s)
    ensures TableChars(s) ==> TableChars(r)
  {
    if s != [] && s[0] == '_' then DropUnderscores(s[1..]) else s
  }

  /** The regular expression `_{2,}` replaced by "_": every run of '_' becomes one. */
  function Collapse(s: GoString): (r: GoString)
    ensures s != [] ==> r != [] && (r[0] == '_' <==> s[0] == '_')
    decreases |s|
  {
    if s == [] then []
    else if s[0] == '_' then "_" + Collapse(DropUnderscores(s[1..]))
    else [s[0]] + Collapse(s[1..])
  }

  lemma {:induction false} CollapseAlnums(s: GoString)
    ensures Alnums(Collapse(s)) == Alnums(s)
    decreases |s|
  {
    if s != [] {
      var rest := if s[0] == '_' then DropUnderscores(s[1..]) else s[1..];
      CollapseAlnums(rest);
      AlnumsAppend([s[0]], Collapse(rest));
      assert Alnums(s) == Alnums([s[0]]) + Alnums(s[1..]) by {
        assert s == [s[0]] + s[1..];
        AlnumsAppend([s[0]], s[1..]);
      }
    }
  }

  lemma {:induction false} CollapseShape(s: GoString)
    requires TableChars(s)
    ensures TableChars(Collapse(s)) && NoDoubleUnderscore(Collapse(s))
    decreases |s|
  {
    if s != [] {
      var rest := if s[0] == '_' then DropUnderscores(s[1..]) else s[1..];
      assert TableChars(s[1..]) by {
        forall i | 0 <= i < |s[1..]| ensures IsAlnum(s[1..][i]) || s[1..][i] == '_' {
          assert s[1..][i] == s[i + 1];
        }
      }
      CollapseShape(rest);
      var c, t := Collapse(rest), [s[0]];
      assert Collapse(s) == t + c;
      assert s[0] == '_' ==> c == [] || c[0] != '_';
      forall i | 0 <= i < |t + c| - 1 ensures !((t + c)[i] == '_' && (t + c)[i + 1] == '_') {
        if i > 0 {
          assert (t + c)[i] == c[i - 1] && (t + c)[i + 1] == c[i];
        }
      }
    }
  }

  function TrimLeftUnderscores(s: GoString): (r: GoString)
    ensures |r| <= |s| && r == s[|s| - |r|..]
    ensures r == [] || r[0] != '_'
    ensures Alnums(r) == Alnums(s)
  {
    if s != [] && s[0] == '_' then TrimLeftUnderscores(s[1..]) else s
  }

  function TrimRightUnderscores(s: GoString): (r: GoString)
    ensures |r| <= |s| && r == s[..|r|]
    ensures r == [] || r[|r| - 1] != '_'
    ensures Alnums(r) == Alnums(s)
  {
    if s != [] && s[|s| - 1] == '_' then
      var r := TrimRightUnderscores(s[..|s| - 1]);
      assert Alnums(s) == Alnums(s[..|s| - 1]) by {
        assert s == s[..|s| - 1] + "_";
        AlnumsAppend(s[..|s| - 1], "_");
      }
      r
    else s
  }

  /** strings.Trim(s, "_"). */
  function TrimUnderscores(s: GoString): (r: GoString)
    ensures Alnums(r) == Alnums(s)
  {
    TrimRightUnderscores(TrimLeftUnderscores(s))
  }

  /** A piece of `s` keeps the character rules of `s`. */
  lemma Infix(s: GoString, i: nat, j: nat)
    requires i <= j <= |s|
    ensures TableChars(s) ==> TableChars(s[i..j])
    ensures NoDoubleUnderscore(s) ==> NoDoubleUnderscore(s[i..j])
  {
    var t := s[i..j];
    assert forall k :: 0 <= k < |t| ==> t[k] == s[i + k];
  }

  lemma TrimShape(s: GoString)
    requires TableChars(s) && NoDoubleUnderscore(s)
    ensures var r := TrimUnderscores(s);
      TableChars(r) && NoDoubleUnderscore(r) && (r == [] || (r[0] != '_' && r[|r| - 1] != '_'))
  {
    var l := TrimLeftUnderscores(s);
    Infix(s, |s| - |l|, |s|);
    var r := TrimRightUnderscores(l);
    Infix(l, 0, |r|);
    assert r == [] || r[0] == l[0];
  }

  /** The sanitised scope segments and name, in order. */
  function Segments(scope: seq<GoString>, name: GoString): (r: seq<GoString>)
    ensures |r| == |scope| + 1
    ensures forall k :: 0 <= k < |r| ==> r[k] == ReplaceUnsafe((scope + [name])[k])
  {
    var all := scope + [name];
    seq(|all|, k requires 0 <= k < |all| => ReplaceUnsafe(all[k]))
  }

  /**
   * TableName / tableName: each scope segment and the name sanitised, joined
   * by '_', runs of '_' collapsed to one and '_' trimmed from both ends.
   */
  function TableName(scope: seq<GoString>, name: GoString): GoString
  {
    TrimUnderscores(Collapse(Join(Segments(scope, name), "_")))
  }

  lemma {:induction false} JoinTableChars(parts: seq<GoString>)
    requires forall k :: 0 <= k < |parts| ==> TableChars(parts[k])
    ensures TableChars(Join(parts, "_"))
    decreases |parts|
  {
    if |parts| > 1 {
      JoinTableChars(parts[1..]);
      var a, b := parts[0] + "_", Join(parts[1..], "_");
      assert TableChars(a) by {
        assert forall i :: 0 <= i < |a| ==> a[i] == if i < |parts[0]| then parts[0][i] else '_';
      }
      assert forall i :: 0 <= i < |a + b| ==> (a + b)[i] == if i < |a| then a[i] else b[i - |a|];
    }
  }

  /** A table name is made of letters, digits and single '_' separators, never at either end. */
  lemma TableNameShape(scope: seq<GoString>, name: GoString)
    ensures var r := TableName(scope, name);
      TableChars(r) && NoDoubleUnderscore(r) && (r == [] || (r[0] != '_' && r[|r| - 1] != '_'))
  {
    var segs := Segments(scope, name);
    var j := Join(segs, "_");
    forall k | 0 <= k < |segs| ensures TableChars(segs[k]) {
      ReplaceUnsafeShape((scope + [name])[k]);
    }
    JoinTableChars(segs);
    CollapseShape(j);
    TrimShape(Collapse(j));
  }

  /** The letters and digits of a list of parts joined by '_' are those of the parts. */
  lemma {:induction false} AlnumsJoin(parts: seq<GoString>, raw: seq<GoString>)
    requires |parts| == |raw| && forall k :: 0 <= k < |parts| ==> Alnums(parts[k]) == Alnums(raw[k])
    ensures Alnums(Join(parts, "_")) == Alnums(Join(raw, "_"))
    decreases |parts|
  {
    if |parts| > 1 {
      AlnumsJoin(parts[1..], raw[1..]);
      AlnumsAppend(parts[0] + "_", Join(parts[1..], "_"));
      AlnumsAppend(raw[0] + "_", Join(raw[1..], "_"));
      AlnumsAppend(parts[0], "_");
      AlnumsAppend(raw[0], "_");
    }
  }

  /** No letter or digit is lost or added: they appear in the order of the scope and then the name. */
  lemma TableNameKeepsAlnums(scope: seq<GoString>, name: GoString)
    ensures Alnums(TableName(scope, name)) == Alnums(Join(scope + [name], "_"))
  {
    var segs := Segments(scope, name);
    forall k | 0 <= k < |segs| ensures Alnums(segs[k]) == Alnums((scope + [name])[k]) {
      ReplaceUnsafeShape((scope + [name])[k]);
    }
    AlnumsJoin(segs, scope + [name]);
    CollapseAlnums(Join(segs, "_"));
  }

  lemma {:induction false} CollapsePlain(s: GoString)
    requires forall i :: 0 <= i < |s| ==> IsAlnum(s[i])
    ensures Collapse(s) == s
    decreases |s|
  {
    if s != [] {
      CollapsePlain(s[1..]);
      assert s == [s[0]] + s[1..];
    }
  }

  /** An event with no scope whose name is letters and digits only is stored in a table of that name. */
  lemma PlainTableName(name: GoString)
    requires forall i :: 0 <= i < |name| ==> IsAlnum(name[i])
    ensures TableName([], name) == name
  {
    ReplaceUnsafePlain(name);
    var segs := Segments([], name);
    assert segs == [name];
    assert Join(segs, "_") == name;
    CollapsePlain(name);
    assert name == [] || (name[0] != '_' && name[|name| - 1] != '_');
    assert TrimLeftUnderscores(name) == name;
    assert TrimRightUnderscores(name) == name;
  }

  // ---------------------------------------------------------- tag columns

  /** The column of a tag: '/' and '-' become '_'. */
  function ColumnChar(c: ByteChar): (r: ByteChar)
    ensures r != '/' && r != '-'
  {
    if c == '/' || c == '-' then '_' else c
  }

  /** tagFieldName: "tag_" and the key, with every '/' and '-' replaced by '_'. */
  function TagFieldName(key: GoString): (r: GoString)
    ensures |r| == 4 + |key| && r[..4] == "tag_"
    ensures '/' !in r && '-' !in r
  {
    var s := "tag_" + key;
    seq(|s|, i requires 0 <= i < |s| => ColumnChar(s[i]))
  }

  /** Keys that differ only in '/', '-' and '_' share a column. */
  lemma TagFieldNameCollides()
    ensures TagFieldName("a/b") == TagFieldName("a-b") == TagFieldName("a_b") == "tag_a_b"
  {
  }

  /** The seven columns every record fills. */
  const FixedColumns: seq<GoString> := ["application_name", "application_version", "source_instance",
    "source_ip", "received_at", "timestamp", "correction"]

  /** No tag column is a fixed column: tags never overwrite the fixed values of a row. */
  lemma TagColumnNotFixed(key: GoString)
    ensures TagFieldName(key) !in FixedColumns
  {
    var r := TagFieldName(key);
    assert r[0] == r[..4][0] == 't' && r[1] == r[..4][1] == 'a';
  }

  // --------------------------------------------------------------- schema

  /** bigquery.FieldType; Untyped is the empty type a FieldSchema has when none is set. */
  datatype FieldType = StringType | IntegerType | FloatType | BooleanType | BytesType | TimestampType | Untyped

  datatype FieldSchema = FieldSchema(name: GoString, fieldType: FieldType)

  type Schema = seq<FieldSchema>

  /** The schema a table is created with. */
  const DefaultSchema: Schema := [
    FieldSchema("application_name", StringType), FieldSchema("application_version", StringType),
    FieldSchema("source_instance", StringType), FieldSchema("source_ip", StringType),
    FieldSchema("received_at", TimestampType), FieldSchema("timestamp", TimestampType),
    FieldSchema("correction", IntegerType)]

  /** Some column of the schema has this name (the inner loop over the schema). */
  predicate HasColumn(schema: Schema, name: GoString)
  {
    exists i :: 0 <= i < |schema| && schema[i].name == name
  }

  /** isTagMissing: scanning the tags in order, the first whose column is not in the schema. */
  function IsTagMissing(schema: Schema, tags: seq<Tag>): bool
  {
    if tags == [] then false
    else if !HasColumn(schema, TagFieldName(tags[0].key)) then true
    else IsTagMissing(schema, tags[1..])
  }

  /** isTagMissing holds exactly when some tag's column is absent; never for no tags. */
  lemma {:induction false} IsTagMissingIff(schema: Schema, tags: seq<Tag>)
    ensures IsTagMissing(schema, tags) <==> exists j :: 0 <= j < |tags| && !HasColumn(schema, TagFieldName(tags[j].key))
    decreases |tags|
  {
    if tags != [] {
      IsTagMissingIff(schema, tags[1..]);
      if exists j :: 0 <= j < |tags| && !HasColumn(schema, TagFieldName(tags[j].key)) {
        var j :| 0 <= j < |tags| && !HasColumn(schema, TagFieldName(tags[j].key));
        if j > 0 {
          assert tags[1..][j - 1] == tags[j];
        }
      }
      if exists j :: 0 <= j < |tags[1..]| && !HasColumn(schema, TagFieldName(tags[1..][j].key)) {
        var j :| 0 <= j < |tags[1..]| && !HasColumn(schema, TagFieldName(tags[1..][j].key));
        assert tags[1..][j] == tags[j + 1];
      }
    }
  }

  /** The column type of a tag value in the newest writers; None for a variant they skip. */
  function ColumnType(v: Option<TagValue>): Option<FieldType>
  {
    match v
    case Some(BoolValue(_)) => Some(BooleanType)
    case Some(BytesValue(_)) => Some(BytesType)
    case Some(DoubleValue(_)) => Some(FloatType)
    case Some(DurationNsValue(_)) => Some(IntegerType)
    case Some(Int64Value(_)) => Some(IntegerType)
    case Some(StringValue(_)) => Some(StringType)
    case Some(TimestampValue(_)) => Some(TimestampType)
    case _ => None
  }

  /**
   * The columns the tag loop appends: one per tag whose column is missing
   * from the ORIGINAL schema and whose value `typeOf` gives a type, in tag
   * order; a key repeated in the tags is appended each time.
   */
  function NewColumns(original: Schema, tags: seq<Tag>, typeOf: Option<TagValue> -> Option<FieldType>): (r: Schema)
    ensures |r| <= |tags|
  {
    if tags == [] then []
    else
      var name := TagFieldName(tags[0].key);
      var here := if !HasColumn(original, name) && typeOf(tags[0].value).Some?
        then [FieldSchema(name, typeOf(tags[0].value).value)] else [];
      here + NewColumns(original, tags[1..], typeOf)
  }

  lemma {:induction false} NewColumnsSnoc(original: Schema, tags: seq<Tag>, tag: Tag, typeOf: Option<TagValue> -> Option<FieldType>)
    ensures NewColumns(original, tags + [tag], typeOf) == NewColumns(original, tags, typeOf) + NewColumns(original, [tag], typeOf)
    decreases |tags|
  {
    if tags == [] {
      assert tags + [tag] == [tag];
    } else {
      assert (tags + [tag])[0] == tags[0] && (tags + [tag])[1..] == tags[1..] + [tag];
      NewColumnsSnoc(original, tags[1..], tag, typeOf);
    }
  }

  /** Membership of a column in the schema, as the inner loop finds it. */
  method FindColumn(schema: Schema, name: GoString) returns (found: bool)
    ensures found <==> HasColumn(schema, name)
  {
    found := false;
    for i := 0 to |schema|
      invariant !found ==> forall k :: 0 <= k < i ==> schema[k].name != name
      invariant found ==> HasColumn(schema, name)
    {
      if schema[i].name == name {
        found := true;
      }
    }
  }

  /**
   * The tag loop of UpdateIfRequired / bigqueryUpdate / UpdateFields: the
   * schema extended by a column for each tag missing from the original.
   */
  method AppendMissing(original: Schema, tags: seq<Tag>, typeOf: Option<TagValue> -> Option<FieldType>) returns (schema: Schema)
    ensures schema == original + NewColumns(original, tags, typeOf)
  {
    schema := original;
    for i := 0 to |tags|
      invariant schema == original + NewColumns(original, tags[..i], typeOf)
    {
      var tag := tags[i];
      NewColumnsSnoc(original, tags[..i], tag, typeOf);
      assert tags[..i + 1] == tags[..i] + [tag];
      var name := TagFieldName(tag.key);
      var found := FindColumn(original, name);
      if found {
        continue;
      }
      var t := typeOf(tag.value);
      if t.None? {
        continue;
      }
      schema := schema + [FieldSchema(name, t.value)];
    }
    assert tags[..|tags|] == tags;
  }

  /** Every appended column is one a tag lacked in the original schema, with the tag's type. */
  lemma {:induction false} NewColumnsMissing(original: Schema, tags: seq<Tag>, typeOf: Option<TagValue> -> Option<FieldType>)
    ensures forall c :: c in NewColumns(original, tags, typeOf) ==>
      !HasColumn(original, c.name) && exists j :: 0 <= j < |tags| && c.name == TagFieldName(tags[j].key) && typeOf(tags[j].value) == Some(c.fieldType)
    decreases |tags|
  {
    if tags != [] {
      NewColumnsMissing(original, tags[1..], typeOf);
      forall c | c in NewColumns(original, tags[1..], typeOf)
        ensures exists j :: 0 <= j < |tags| && c.name == TagFieldName(tags[j].key) && typeOf(tags[j].value) == Some(c.fieldType)
      {
        var j :| 0 <= j < |tags[1..]| && c.name == TagFieldName(tags[1..][j].key) && typeOf(tags[1..][j].value) == Some(c.fieldType);
        assert tags[1..][j] == tags[j + 1];
      }
    }
  }

  /** A tag whose column the original lacks and whose type is known gets a column. */
  lemma {:induction false} NewColumnsComplete(original: Schema, tags: seq<Tag>, typeOf: Option<TagValue> -> Option<FieldType>, j: nat)
    requires j < |tags| && !HasColumn(original, TagFieldName(tags[j].key)) && typeOf(tags[j].value).Some?
    ensures FieldSchema(TagFieldName(tags[j].key), typeOf(tags[j].value).value) in NewColumns(original, tags, typeOf)
    decreases |tags|
  {
    if j > 0 {
      assert tags[1..][j - 1] == tags[j];
      NewColumnsComplete(original, tags[1..], typeOf, j - 1);
    }
  }

  /** With every column present nothing is appended. */
  lemma {:induction false} NewColumnsNone(original: Schema, tags: seq<Tag>, typeOf: Option<TagValue> -> Option<FieldType>)
    requires !IsTagMissing(original, tags)
    ensures NewColumns(original, tags, typeOf) == []
    decreases |tags|
  {
    if tags != [] {
      NewColumnsNone(original, tags[1..], typeOf);
    }
  }

  /** Membership is checked against the original schema only: a missing key given twice gets two columns. */
  lemma RepeatedKeyAppendedTwice(original: Schema, key: GoString, v: TagValue)
    requires !HasColumn(original, TagFieldName(key)) && ColumnType(Some(v)).Some?
    ensures |NewColumns(original, [Tag(key, Some(v)), Tag(key, Some(v))], ColumnType)| == 2
  {
    var tags := [Tag(key, Some(v)), Tag(key, Some(v))];
    assert tags[1..] == [Tag(key, Some(v))];
    assert tags[1..][1..] == [];
  }
}
