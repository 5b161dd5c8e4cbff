/**
 Table structure derived from the field configuration: the column type of a
 field, the additive synchroniser of server.js (create a table with the two base
 columns, then add each configured column the live table lacks) and the
 create-once variant of server-upnp.js (create the table with every column, never
 alter it afterwards). A schema maps table names to their ordered columns.
 */
module Schema {
  import opened JsValues
  import opened ScoutingConfig
  import Text

  datatype ColumnType = IntegerType | RealType | TextType | DatetimeType

  datatype Column = Column(name: string, ctype: ColumnType)

  type Tables = map<string, seq<Column>>

  /** `id INTEGER PRIMARY KEY AUTOINCREMENT`, `timestamp DATETIME DEFAULT CURRENT_TIMESTAMP` */
  const BaseColumns: seq<Column> := [Column("id", IntegerType), Column("timestamp", DatetimeType)]

  function Names(cols: seq<Column>): (r: seq<string>)
    ensures |r| == |cols| && forall i :: 0 <= i < |cols| ==> r[i] == cols[i].name
  {
    seq(|cols|, i requires 0 <= i < |cols| => cols[i].name)
  }

  /** The storage type of a field's column (server.js). */
  function ColumnTypeFor(ft: FieldType): (r: ColumnType)
    ensures r == RealType <==> ft == Number
    ensures r == IntegerType <==> ft == Checkbox
    ensures r == TextType <==> ft != Number && ft != Checkbox
  {
    var columnType := TextType;
    var columnType := if ft == Number then RealType else columnType;
    if ft == Checkbox then IntegerType else columnType
  }

  /** The storage type of a field's column (server-upnp.js), with its explicit file case. */
  function UpnpColumnTypeFor(ft: FieldType): ColumnType {
    if ft == Number then RealType
    else if ft == Checkbox then IntegerType
    else if ft == File then TextType
    else TextType
  }

  /** Both servers map every field type to the same column type. */
  lemma ColumnTypesAgree(ft: FieldType)
    ensures UpnpColumnTypeFor(ft) == ColumnTypeFor(ft)
  {
  }

  function ColumnFor(f: Field): Column {
    Column(f.id, ColumnTypeFor(f.ftype))
  }

  /** SQLite compares column names without regard to ASCII case: adding `name`
      to `cols` fails with "duplicate column name" exactly when this holds. */
  predicate NameClash(name: string, cols: seq<Column>) {
    exists i :: 0 <= i < |cols| && Text.ToLower(cols[i].name) == Text.ToLower(name)
  }

  lemma SameNameClashes(name: string, cols: seq<Column>)
    requires name in Names(cols)
    ensures NameClash(name, cols)
  {
    var i :| 0 <= i < |cols| && Names(cols)[i] == name;
    assert Text.ToLower(cols[i].name) == Text.ToLower(name);
  }

  datatype Added = Added(cols: seq<Column>, ok: bool)

  /** The loop over fields: a field whose id is in the `snapshot` of live column
      names taken before the loop is skipped; any other field is added with an
      ALTER TABLE, which fails (and aborts the loop) when its name clashes with a
      column the table has by now. Columns added before a failure stay. */
  function AddMissing(fields: seq<Field>, snapshot: seq<string>, cols: seq<Column>): Added {
    if |fields| == 0 then Added(cols, true)
    else
      var f := fields[0];
      if f.id in snapshot then AddMissing(fields[1..], snapshot, cols)
      else if NameClash(f.id, cols) then Added(cols, false)
      else AddMissing(fields[1..], snapshot, cols + [ColumnFor(f)])
  }

  /** The loop only appends, and each column it adds is that of a field the
      snapshot lacked. */
  lemma {:induction false} AddMissingAppends(fields: seq<Field>, snapshot: seq<string>, cols: seq<Column>)
    ensures var r := AddMissing(fields, snapshot, cols);
            cols <= r.cols &&
            forall k :: |cols| <= k < |r.cols| ==>
              exists i :: 0 <= i < |fields| && fields[i].id !in snapshot && r.cols[k] == ColumnFor(fields[i])
  {
    if |fields| > 0 {
      var f, tail := fields[0], fields[1..];
      if f.id in snapshot || !NameClash(f.id, cols) {
        var cols' := if f.id in snapshot then cols else cols + [ColumnFor(f)];
        AddMissingAppends(tail, snapshot, cols');
        var r := AddMissing(tail, snapshot, cols');
        assert AddMissing(fields, snapshot, cols) == r;
        forall k | |cols| <= k < |r.cols|
          ensures exists i :: 0 <= i < |fields| && fields[i].id !in snapshot && r.cols[k] == ColumnFor(fields[i])
        {
          if k < |cols'| {
            assert r.cols[k] == cols'[k] == ColumnFor(fields[0]);
          } else {
            var i :| 0 <= i < |tail| && tail[i].id !in snapshot && r.cols[k] == ColumnFor(tail[i]);
            assert fields[i + 1] == tail[i];
          }
        }
      }
    }
  }

  /** On success every field is in the snapshot or now a column; a failure is
      a field the snapshot lacked whose name clashes with the table's columns. */
  lemma {:induction false} AddMissingOutcome(fields: seq<Field>, snapshot: seq<string>, cols: seq<Column>)
    ensures var r := AddMissing(fields, snapshot, cols);
            (r.ok ==> forall i :: 0 <= i < |fields| ==> fields[i].id in snapshot || fields[i].id in Names(r.cols)) &&
            (!r.ok ==> exists i :: 0 <= i < |fields| && fields[i].id !in snapshot && NameClash(fields[i].id, r.cols))
  {
    if |fields| > 0 {
      var f, tail := fields[0], fields[1..];
      assert forall i :: 1 <= i < |fields| ==> tail[i - 1] == fields[i];
      if f.id in snapshot || !NameClash(f.id, cols) {
        var cols' := if f.id in snapshot then cols else cols + [ColumnFor(f)];
        AddMissingOutcome(tail, snapshot, cols');
        var r := AddMissing(tail, snapshot, cols');
        assert AddMissing(fields, snapshot, cols) == r;
        if f.id !in snapshot {
          AddMissingAppends(tail, snapshot, cols');
          assert r.cols[|cols|] == ColumnFor(f);
          assert f.id in Names(r.cols) by { assert Names(r.cols)[|cols|] == f.id; }
        }
      } else {
        assert AddMissing(fields, snapshot, cols) == Added(cols, false);
      }
    }
  }

  /** `CREATE TABLE IF NOT EXISTS name (id ..., timestamp ...)` */
  function CreateIfMissing(schema: Tables, name: string): (r: Tables)
    ensures name in r && r.Keys == schema.Keys + {name}
  {
    if name in schema then schema else schema[name := BaseColumns]
  }

  datatype Synced = Synced(tables: Tables, ok: bool)

  /** One scouting type of server.js's `initializeDatabase`. */
  function SyncType(t: ScoutingType, schema: Tables): Synced {
    var name := SyncTableName(t);
    var s1 := CreateIfMissing(schema, name);
    var a := AddMissing(FieldsOf(t), Names(s1[name]), s1[name]);
    Synced(s1[name := a.cols], a.ok)
  }

  /** server.js's `initializeDatabase` over the types in order; the first failure
      rejects the startup promise and later types are not visited. */
  function SyncAll(types: Config, schema: Tables): Synced {
    if |types| == 0 then Synced(schema, true)
    else
      var s := SyncType(types[0], schema);
      if !s.ok then s else SyncAll(types[1..], s.tables)
  }

  /** Table `name` of `after` extends its columns in `before`, if it had any. */
  ghost predicate Extends(before: Tables, after: Tables) {
    before.Keys <= after.Keys && forall n :: n in before ==> before[n] <= after[n]
  }

  lemma ExtendsTransitive(a: Tables, b: Tables, c: Tables)
    requires Extends(a, b) && Extends(b, c)
    ensures Extends(a, c)
  {
  }

  /** Names of the tables the configured types synchronise. */
  ghost predicate Configured(types: Config, name: string) {
    exists i :: 0 <= i < |types| && SyncTableName(types[i]) == name
  }

  /** One type's synchronisation only extends the table it names. */
  lemma SyncTypeExtends(t: ScoutingType, schema: Tables)
    ensures Extends(schema, SyncType(t, schema).tables)
    ensures SyncType(t, schema).tables.Keys == schema.Keys + {SyncTableName(t)}
    ensures forall n :: n in schema && n != SyncTableName(t) ==> SyncType(t, schema).tables[n] == schema[n]
    ensures CreateIfMissing(schema, SyncTableName(t))[SyncTableName(t)] <= SyncType(t, schema).tables[SyncTableName(t)]
  {
    var name := SyncTableName(t);
    var s1 := CreateIfMissing(schema, name);
    AddMissingAppends(FieldsOf(t), Names(s1[name]), s1[name]);
  }

  /** Synchronising never drops a table, never removes or reorders a column, and
      touches no table that no configured type names. */
  lemma {:induction false} SyncAllExtends(types: Config, schema: Tables)
    ensures Extends(schema, SyncAll(types, schema).tables)
    ensures forall n :: n in SyncAll(types, schema).tables && !Configured(types, n) ==>
              n in schema && SyncAll(types, schema).tables[n] == schema[n]
  {
    if |types| > 0 {
      var s := SyncType(types[0], schema);
      SyncTypeExtends(types[0], schema);
      if s.ok {
        var final := SyncAll(types[1..], s.tables);
        assert SyncAll(types, schema) == final;
        SyncAllExtends(types[1..], s.tables);
        ExtendsTransitive(schema, s.tables, final.tables);
        forall n | n in final.tables && !Configured(types, n)
          ensures n in schema && final.tables[n] == schema[n]
        {
          assert n != SyncTableName(types[0]);
          assert !Configured(types[1..], n);
        }
      }
    }
  }

  lemma PrefixKeepsNames(a: seq<Column>, b: seq<Column>, name: string)
    requires a <= b && name in Names(a)
    ensures name in Names(b)
  {
    var i :| 0 <= i < |a| && Names(a)[i] == name;
    assert Names(b)[i] == name;
  }

  /** Field `j` of type `t` is a column of `t`'s table in `tables`. */
  ghost predicate HasFieldColumn(tables: Tables, t: ScoutingType, j: int) {
    0 <= j < |FieldsOf(t)| && SyncTableName(t) in tables && FieldsOf(t)[j].id in Names(tables[SyncTableName(t)])
  }

  lemma ExtendsKeepsField(before: Tables, after: Tables, t: ScoutingType, j: int)
    requires Extends(before, after) && HasFieldColumn(before, t, j)
    ensures HasFieldColumn(after, t, j)
  {
    var name := SyncTableName(t);
    PrefixKeepsNames(before[name], after[name], FieldsOf(t)[j].id);
  }

  /** A successful synchronisation of one type gives its table every field. */
  lemma SyncTypeHasField(t: ScoutingType, schema: Tables, j: int)
    requires SyncType(t, schema).ok && 0 <= j < |FieldsOf(t)|
    ensures HasFieldColumn(SyncType(t, schema).tables, t, j)
  {
    var name := SyncTableName(t);
    var fs := FieldsOf(t);
    var s1 := CreateIfMissing(schema, name);
    var a := AddMissing(fs, Names(s1[name]), s1[name]);
    assert SyncType(t, schema).tables == s1[name := a.cols] && a.ok;
    AddMissingAppends(fs, Names(s1[name]), s1[name]);
    AddMissingOutcome(fs, Names(s1[name]), s1[name]);
    if fs[j].id in Names(s1[name]) {
      PrefixKeepsNames(s1[name], a.cols, fs[j].id);
    }
  }

  /** One configured field of one type is a column of that type's table. */
  lemma {:induction false} SyncAllHasField(types: Config, schema: Tables, i: nat, j: nat)
    requires SyncAll(types, schema).ok
    requires i < |types| && j < |FieldsOf(types[i])|
    ensures HasFieldColumn(SyncAll(types, schema).tables, types[i], j)
  {
    var s := SyncType(types[0], schema);
    var final := SyncAll(types[1..], s.tables);
    assert s.ok && SyncAll(types, schema) == final;
    if i == 0 {
      SyncTypeHasField(types[0], schema, j);
      SyncAllExtends(types[1..], s.tables);
      ExtendsKeepsField(s.tables, final.tables, types[0], j);
    } else {
      assert types[1..][i - 1] == types[i];
      SyncAllHasField(types[1..], s.tables, i - 1, j);
    }
  }

  /** After a successful synchronisation every configured field is a column of
      its type's table. */
  lemma SyncAllComplete(types: Config, schema: Tables)
    requires SyncAll(types, schema).ok
    ensures forall i, j :: 0 <= i < |types| && 0 <= j < |FieldsOf(types[i])| ==>
              HasFieldColumn(SyncAll(types, schema).tables, types[i], j)
  {
    forall i, j | 0 <= i < |types| && 0 <= j < |FieldsOf(types[i])|
      ensures HasFieldColumn(SyncAll(types, schema).tables, types[i], j)
    {
      SyncAllHasField(types, schema, i, j);
    }
  }

  lemma {:induction false} AddMissingNothingMissing(fields: seq<Field>, snapshot: seq<string>, cols: seq<Column>)
    requires forall i :: 0 <= i < |fields| ==> fields[i].id in snapshot
    ensures AddMissing(fields, snapshot, cols) == Added(cols, true)
  {
    if |fields| > 0 {
      assert forall i :: 1 <= i < |fields| ==> fields[1..][i - 1] == fields[i];
      AddMissingNothingMissing(fields[1..], snapshot, cols);
    }
  }

  /** A schema that already has every configured column is a fixpoint. */
  lemma {:induction false} SyncAllFixpoint(types: Config, schema: Tables)
    requires forall i, j :: 0 <= i < |types| && 0 <= j < |FieldsOf(types[i])| ==> HasFieldColumn(schema, types[i], j)
    requires forall i :: 0 <= i < |types| ==> SyncTableName(types[i]) in schema
    ensures SyncAll(types, schema) == Synced(schema, true)
  {
    if |types| > 0 {
      var name := SyncTableName(types[0]);
      forall j | 0 <= j < |FieldsOf(types[0])| ensures FieldsOf(types[0])[j].id in Names(schema[name]) {
        assert HasFieldColumn(schema, types[0], j);
      }
      AddMissingNothingMissing(FieldsOf(types[0]), Names(schema[name]), schema[name]);
      assert schema[name := schema[name]] == schema;
      forall i, j | 0 <= i < |types| - 1 && 0 <= j < |FieldsOf(types[1..][i])|
        ensures HasFieldColumn(schema, types[1..][i], j)
      {
        assert types[1..][i] == types[i + 1];
      }
      SyncAllFixpoint(types[1..], schema);
    }
  }

  /** Running the synchroniser a second time with the same configuration adds nothing. */
  lemma SyncAllIdempotent(types: Config, schema: Tables)
    requires SyncAll(types, schema).ok
    ensures SyncAll(types, SyncAll(types, schema).tables) == SyncAll(types, schema)
  {
    SyncAllComplete(types, schema);
    var t := SyncAll(types, schema).tables;
    forall i | 0 <= i < |types| ensures SyncTableName(types[i]) in t {
      SyncAllCreates(types, schema, i);
    }
    SyncAllFixpoint(types, t);
  }

  /** Every configured table exists after a successful run. */
  lemma {:induction false} SyncAllCreates(types: Config, schema: Tables, i: nat)
    requires SyncAll(types, schema).ok && i < |types|
    ensures SyncTableName(types[i]) in SyncAll(types, schema).tables
  {
    var s := SyncType(types[0], schema);
    SyncAllExtends(types[1..], s.tables);
    if i > 0 {
      SyncAllCreates(types[1..], s.tables, i - 1);
    }
  }

  /** Every table starts with the base columns `id` and `timestamp`. */
  ghost predicate BaseFirst(schema: Tables) {
    forall n :: n in schema ==> BaseColumns <= schema[n]
  }

  /** Tables the synchroniser creates start with the base columns, and the
      columns it adds come after those a table already had. */
  lemma {:induction false} SyncAllKeepsBaseFirst(types: Config, schema: Tables)
    requires BaseFirst(schema)
    ensures BaseFirst(SyncAll(types, schema).tables)
  {
    if |types| > 0 {
      var s := SyncType(types[0], schema);
      assert BaseFirst(s.tables) by {
        var name := SyncTableName(types[0]);
        SyncTypeExtends(types[0], schema);
        assert BaseColumns <= CreateIfMissing(schema, name)[name];
      }
      if s.ok {
        SyncAllKeepsBaseFirst(types[1..], s.tables);
      }
    }
  }

  // ---------------------------------------------------------------------------
  // server-upnp.js: one CREATE TABLE IF NOT EXISTS with every column.

  /** `columns`: the base columns, then one column per field in order. */
  function CreateColumns(fields: seq<Field>): (r: seq<Column>)
    ensures |r| == 2 + |fields| && r[..2] == BaseColumns
    ensures forall i :: 0 <= i < |fields| ==> r[2 + i] == Column(fields[i].id, UpnpColumnTypeFor(fields[i].ftype))
  {
    BaseColumns + seq(|fields|, i requires 0 <= i < |fields| => Column(fields[i].id, UpnpColumnTypeFor(fields[i].ftype)))
  }

  /** Two columns of one CREATE TABLE statement whose names clash. */
  predicate HasDuplicate(cols: seq<Column>) {
    exists i, j :: 0 <= i < j < |cols| && Text.ToLower(cols[i].name) == Text.ToLower(cols[j].name)
  }

  /** `CREATE TABLE IF NOT EXISTS name (cols)`: an existing table is left as it
      is; a new one is created unless two of its columns clash. */
  function CreateTable(schema: Tables, name: string, cols: seq<Column>): (r: Synced)
    ensures name in schema ==> r == Synced(schema, true)
    ensures name !in schema ==> r.ok == !HasDuplicate(cols)
    ensures name !in schema && r.ok ==> r.tables == schema[name := cols]
    ensures !r.ok ==> r.tables == schema
  {
    if name in schema then Synced(schema, true)
    else if HasDuplicate(cols) then Synced(schema, false)
    else Synced(schema[name := cols], true)
  }

  /** server-upnp.js's `initializeDatabase`: every statement runs (each type has
      its own promise), and `Promise.all` fails if any of them failed. */
  function CreateAll(types: Config, schema: Tables): Synced {
    if |types| == 0 then Synced(schema, true)
    else
      var c := CreateTable(schema, SyncTableName(types[0]), CreateColumns(FieldsOf(types[0])));
      var rest := CreateAll(types[1..], c.tables);
      Synced(rest.tables, c.ok && rest.ok)
  }

  /** Existing tables gain no columns; a new table gets exactly the columns of
      the first type that names it (when they do not clash); nothing else appears. */
  lemma {:induction false} CreateAllShape(types: Config, schema: Tables)
    ensures forall n :: n in schema ==> n in CreateAll(types, schema).tables && CreateAll(types, schema).tables[n] == schema[n]
    ensures forall n :: n in CreateAll(types, schema).tables && n !in schema ==>
              exists i :: 0 <= i < |types| && SyncTableName(types[i]) == n &&
                CreateAll(types, schema).tables[n] == CreateColumns(FieldsOf(types[i]))
  {
    if |types| > 0 {
      var name := SyncTableName(types[0]);
      var c := CreateTable(schema, name, CreateColumns(FieldsOf(types[0])));
      CreateAllShape(types[1..], c.tables);
      var r := CreateAll(types, schema).tables;
      forall n | n in r && n !in schema
        ensures exists i :: 0 <= i < |types| && SyncTableName(types[i]) == n && r[n] == CreateColumns(FieldsOf(types[i]))
      {
        if n !in c.tables {
          var i :| 0 <= i < |types| - 1 && SyncTableName(types[1..][i]) == n &&
                   r[n] == CreateColumns(FieldsOf(types[1..][i]));
          assert types[1..][i] == types[i + 1];
        } else {
          assert n == name;
        }
      }
    }
  }

  lemma {:induction false} CreateAllMakesTables(types: Config, schema: Tables)
    requires CreateAll(types, schema).ok
    ensures forall i :: 0 <= i < |types| ==> SyncTableName(types[i]) in CreateAll(types, schema).tables
  {
    if |types| > 0 {
      var c := CreateTable(schema, SyncTableName(types[0]), CreateColumns(FieldsOf(types[0])));
      CreateAllShape(types[1..], c.tables);
      CreateAllMakesTables(types[1..], c.tables);
      forall i | 1 <= i < |types| ensures SyncTableName(types[i]) in CreateAll(types, schema).tables {
        assert types[1..][i - 1] == types[i];
      }
    }
  }

  lemma {:induction false} CreateAllExisting(types: Config, schema: Tables)
    requires forall i :: 0 <= i < |types| ==> SyncTableName(types[i]) in schema
    ensures CreateAll(types, schema) == Synced(schema, true)
  {
    if |types| > 0 {
      CreateAllExisting(types[1..], schema);
    }
  }

  /** A second run of the create-once initialisation changes nothing. */
  lemma CreateAllIdempotent(types: Config, schema: Tables)
    requires CreateAll(types, schema).ok
    ensures CreateAll(types, CreateAll(types, schema).tables) == Synced(CreateAll(types, schema).tables, true)
  {
    CreateAllMakesTables(types, schema);
    CreateAllExisting(types, CreateAll(types, schema).tables);
  }

  /** The base columns and the fields' columns, none clashing with another. */
  predicate ClashFree(fields: seq<Field>) {
    !HasDuplicate(CreateColumns(fields))
  }

  lemma {:induction false} AddMissingAppendsAll(fields: seq<Field>, snapshot: seq<string>, cols: seq<Column>)
    requires forall i :: 0 <= i < |fields| ==> fields[i].id !in snapshot
    requires !HasDuplicate(cols + seq(|fields|, i requires 0 <= i < |fields| => ColumnFor(fields[i])))
    ensures AddMissing(fields, snapshot, cols) ==
            Added(cols + seq(|fields|, i requires 0 <= i < |fields| => ColumnFor(fields[i])), true)
  {
    var all := cols + seq(|fields|, i requires 0 <= i < |fields| => ColumnFor(fields[i]));
    if |fields| > 0 {
      var f := fields[0];
      assert all[|cols|] == ColumnFor(f);
      forall i | 0 <= i < |cols| ensures Text.ToLower(cols[i].name) != Text.ToLower(f.id) {
        assert all[i] == cols[i];
        assert !(Text.ToLower(all[i].name) == Text.ToLower(all[|cols|].name));
      }
      var tail := fields[1..];
      var cols' := cols + [ColumnFor(f)];
      assert cols' + seq(|tail|, i requires 0 <= i < |tail| => ColumnFor(tail[i])) == all;
      assert forall i :: 0 <= i < |tail| ==> tail[i] == fields[i + 1];
      AddMissingAppendsAll(tail, snapshot, cols');
    } else {
      assert all == cols;
    }
  }

  lemma FieldsAvoidBase(fs: seq<Field>, i: nat)
    requires ClashFree(fs) && i < |fs|
    ensures fs[i].id !in Names(BaseColumns)
  {
    var all := CreateColumns(fs);
    assert all[2 + i].name == fs[i].id;
  }

  lemma CreateColumnsAsSync(fs: seq<Field>)
    ensures BaseColumns + seq(|fs|, i requires 0 <= i < |fs| => ColumnFor(fs[i])) == CreateColumns(fs)
  {
    var mapped := seq(|fs|, i requires 0 <= i < |fs| => ColumnFor(fs[i]));
    var upnp := seq(|fs|, i requires 0 <= i < |fs| => Column(fs[i].id, UpnpColumnTypeFor(fs[i].ftype)));
    forall i | 0 <= i < |fs| ensures mapped[i] == upnp[i] {
      ColumnTypesAgree(fs[i].ftype);
    }
    assert mapped == upnp;
  }

  /** The column list of a longer prefix of the fields has one more column at the end. */
  lemma CreateColumnsSnoc(fields: seq<Field>, i: nat)
    requires i < |fields|
    ensures CreateColumns(fields[..i + 1]) == CreateColumns(fields[..i]) + [Column(fields[i].id, UpnpColumnTypeFor(fields[i].ftype))]
  {
    var a, b := CreateColumns(fields[..i + 1]), CreateColumns(fields[..i]) + [Column(fields[i].id, UpnpColumnTypeFor(fields[i].ftype))];
    assert |a| == |b|;
    forall k | 0 <= k < |a| ensures a[k] == b[k] {
      if k < 2 {
        assert a[..2][k] == a[k] && CreateColumns(fields[..i])[..2][k] == b[k];
      } else if k < |a| - 1 {
        assert fields[..i + 1][k - 2] == fields[..i][k - 2];
      }
    }
  }

  lemma FreshAddMissing(fs: seq<Field>)
    requires ClashFree(fs)
    ensures AddMissing(fs, Names(BaseColumns), BaseColumns) == Added(CreateColumns(fs), true)
  {
    forall i | 0 <= i < |fs| ensures fs[i].id !in Names(BaseColumns) {
      FieldsAvoidBase(fs, i);
    }
    CreateColumnsAsSync(fs);
    AddMissingAppendsAll(fs, Names(BaseColumns), BaseColumns);
  }

  lemma FreshSync(fs: seq<Field>, schema: Tables, name: string)
    requires name !in schema && ClashFree(fs)
    ensures AddMissing(fs, Names(CreateIfMissing(schema, name)[name]), CreateIfMissing(schema, name)[name]) == Added(CreateColumns(fs), true)
  {
    assert CreateIfMissing(schema, name)[name] == BaseColumns;
    FreshAddMissing(fs);
  }

  /** On a new table whose columns do not clash, the additive synchroniser
      succeeds ... */
  lemma FreshSyncSucceeds(t: ScoutingType, schema: Tables)
    requires SyncTableName(t) !in schema && ClashFree(FieldsOf(t))
    ensures SyncType(t, schema).ok
  {
    FreshSync(FieldsOf(t), schema, SyncTableName(t));
  }

  /** ... and builds the same column list as the create-once initialisation. */
  lemma SyncMatchesCreate(t: ScoutingType, schema: Tables)
    requires SyncTableName(t) !in schema && ClashFree(FieldsOf(t))
    ensures SyncType(t, schema).tables == CreateTable(schema, SyncTableName(t), CreateColumns(FieldsOf(t))).tables
  {
    FreshSync(FieldsOf(t), schema, SyncTableName(t));
  }
}
