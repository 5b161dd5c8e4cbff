/**
 The field configuration (`scouting-config.json`): scouting types in the order
 `Object.keys` lists them, each with an optional table name and an optional,
 ordered list of field descriptors.
 */
module ScoutingConfig {
  import opened JsValues

  /** A descriptor's `type`; any other string is kept as `Other`. */
  datatype FieldType = Text | Number | Select | Textarea | Checkbox | File | Other(name: string)

  /** A field descriptor; `caption` is its `label`, `required` the truthiness of its flag. */
  datatype Field = Field(id: string, caption: string, ftype: FieldType, required: bool)

  /** A scouting type. `tableName` and `fields` may be absent from the JSON. */
  datatype ScoutingType = ScoutingType(key: string, tableName: Option<string>, fields: Option<seq<Field>>)

  type Config = seq<ScoutingType>

  /** `scoutingConfig.scoutingTypes[key]` */
  function Lookup(config: Config, key: string): (r: Option<ScoutingType>)
    ensures r.Some? ==> r.value in config && r.value.key == key
    ensures r.None? <==> forall i :: 0 <= i < |config| ==> config[i].key != key
  {
    if |config| == 0 then None
    else if config[0].key == key then Some(config[0])
    else Lookup(config[1..], key)
  }

  /** `typeConfig.fields || []` */
  function FieldsOf(t: ScoutingType): seq<Field> {
    match t.fields
    case Some(fs) => fs
    case None => []
  }

  /** `fields.map(f => f.id)` */
  function FieldIds(fields: seq<Field>): (r: seq<string>)
    ensures |r| == |fields|
  {
    seq(|fields|, i requires 0 <= i < |fields| => fields[i].id)
  }

  /** The table the schema synchroniser creates: `typeConfig.tableName || `${typeKey}_data``. */
  function SyncTableName(t: ScoutingType): string {
    match t.tableName
    case Some(n) => if n != "" then n else t.key + "_data"
    case None => t.key + "_data"
  }

  /** The table the request handlers address: `typeConfig.tableName`, with no
      default, so an absent name is interpolated into the SQL as `undefined`. */
  function HandlerTableName(t: ScoutingType): string {
    match t.tableName
    case Some(n) => n
    case None => "undefined"
  }

  /** The handlers find the synchronised table exactly when the type names a
      non-empty table; without a name they address a table the synchroniser
      never creates for that type. */
  lemma TableNamesAgree(t: ScoutingType)
    ensures HandlerTableName(t) == SyncTableName(t) <==> (t.tableName.Some? && t.tableName.value != "")
  {
    if t.tableName.None? {
      var s := t.key + "_data";
      assert s[|s| - 5] == '_' != "undefined"[4];
    } else if t.tableName.value == "" {
      assert |SyncTableName(t)| >= 5;
    }
  }

  /** `fields.filter(p).map(f => f.caption)` */
  function LabelsWhere(fields: seq<Field>, p: Field -> bool): (r: seq<string>)
    ensures |r| <= |fields|
    ensures forall l :: l in r <==> exists i :: 0 <= i < |fields| && p(fields[i]) && fields[i].caption == l
    ensures r == [] <==> forall i :: 0 <= i < |fields| ==> !p(fields[i])
  {
    if |fields| == 0 then []
    else
      var rest := LabelsWhere(fields[1..], p);
      assert forall i :: 1 <= i < |fields| ==> fields[1..][i - 1] == fields[i];
      if p(fields[0]) then [fields[0].caption] + rest else rest
  }

  /** Filtering and mapping work field by field: the labels of a list are the
      labels of its first part followed by those of the rest. */
  lemma {:induction false} LabelsAppend(a: seq<Field>, b: seq<Field>, p: Field -> bool)
    ensures LabelsWhere(a + b, p) == LabelsWhere(a, p) + LabelsWhere(b, p)
  {
    if |a| == 0 {
      assert a + b == b;
    } else {
      assert (a + b)[0] == a[0] && (a + b)[1..] == a[1..] + b;
      LabelsAppend(a[1..], b, p);
    }
  }

  /** A field contributes its own label, once, exactly when it passes the filter. */
  lemma LabelsOne(f: Field, p: Field -> bool)
    ensures LabelsWhere([f], p) == if p(f) then [f.caption] else []
  {
    assert [f][1..] == [];
  }

  /** So the labels keep configuration order: a field's label sits between the
      labels of the fields before it and those after it. */
  lemma LabelsInOrder(before: seq<Field>, f: Field, after: seq<Field>, p: Field -> bool)
    ensures LabelsWhere(before + [f] + after, p) ==
            LabelsWhere(before, p) + (if p(f) then [f.caption] else []) + LabelsWhere(after, p)
  {
    LabelsAppend(before + [f], after, p);
    LabelsAppend(before, [f], p);
    LabelsOne(f, p);
  }
}
