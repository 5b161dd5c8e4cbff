/**
 The older browser client (src/public/app.js). Its sort toggle, image paths
 and cell formatting are the same code as the current client's: the page
 state is its own, the rules are the members of `WebClient`. What differs is
 that it keeps only the edit flag, and that its submit handler leaves a file
 field out of the form data when the field has no hidden input, instead of
 sending null.
 */
module LegacyClient {
  import opened JsValues
  import opened ScoutingConfig
  import opened WebClient

  /** The module-level state of the older page: the same sort state as the
      current page, and of the permission flags only the edit flag. */
  class LegacyPage {
    var sortColumn: string
    var sortOrder: Order
    var isAuthenticated: bool
    var currentUser: Value
    var canEditData: bool

    function Sort(): SortState
      reads this
    {
      SortState(sortColumn, sortOrder)
    }

    constructor ()
      ensures Sort() == InitialSort
      ensures !isAuthenticated && currentUser == Null && !canEditData
    {
      sortColumn, sortOrder := "timestamp", Desc;
      isAuthenticated, currentUser, canEditData := false, Null, false;
    }

    /** `sortData`: the toggle rule of the current page. */
    method SortData(column: string)
      modifies this`sortColumn, this`sortOrder
      ensures Sort() == NextSort(old(Sort()), column)
    {
      if sortColumn == column {
        sortOrder := if sortOrder == Asc then Desc else Asc;
      } else {
        sortColumn := column;
        sortOrder := Asc;
      }
    }

    /** `checkAuth`: the same rule as the current client's for the three
        values this page keeps. */
    method CheckAuth(fetched: MeFetch) returns (authenticated: bool)
      modifies this`isAuthenticated, this`currentUser, this`canEditData
      ensures isAuthenticated == AuthAfter(fetched).isAuthenticated
      ensures currentUser == AuthAfter(fetched).currentUser
      ensures canEditData == AuthAfter(fetched).canEdit
      ensures authenticated == isAuthenticated
    {
      if fetched.OkJson? {
        var data := fetched.body;
        isAuthenticated := true;
        currentUser := Or(Get(data, "user"), Null);
        canEditData := Get(data, "canEdit") == Bool(true);
      } else {
        isAuthenticated := false;
        currentUser := Null;
        canEditData := false;
      }
      authenticated := isAuthenticated;
    }
  }

  /** The submit handler's entry for one field: a file field only when its
      hidden input exists; any other field as in the current client. */
  function LegacyEntry(f: Field, dom: Dom): (r: Option<Value>)
    ensures f.ftype == File ==> (r.Some? <==> HiddenId(f) in dom)
    ensures !(f.ftype == File && HiddenId(f) !in dom) ==> r == Entry(f, dom)
  {
    if f.ftype == File && HiddenId(f) !in dom then None else Entry(f, dom)
  }

  /** The `forEach` of the submit handler over the fields in order. */
  function SubmitData(fields: seq<Field>, dom: Dom): Object {
    if |fields| == 0 then map[]
    else
      var n := |fields| - 1;
      var rest := SubmitData(fields[..n], dom);
      var e := LegacyEntry(fields[n], dom);
      if e.Some? then rest[fields[n].id := e.value] else rest
  }

  /** Only field ids are keys of the form data. */
  lemma {:induction false} SubmitDataKeys(fields: seq<Field>, dom: Dom)
    ensures forall k :: k in SubmitData(fields, dom) ==> exists i :: 0 <= i < |fields| && fields[i].id == k
  {
    if |fields| > 0 {
      var n := |fields| - 1;
      SubmitDataKeys(fields[..n], dom);
      assert forall i :: 0 <= i < n ==> fields[..n][i] == fields[i];
    }
  }

  method CollectSubmitData(fields: seq<Field>, dom: Dom) returns (formData: Object)
    ensures formData == SubmitData(fields, dom)
  {
    formData := map[];
    var i := 0;
    while i < |fields|
      invariant 0 <= i <= |fields|
      invariant formData == SubmitData(fields[..i], dom)
    {
      var field := fields[i];
      assert fields[..i + 1][..i] == fields[..i];
      if field.ftype == File {
        var hidden := HiddenId(field);
        if hidden in dom {
          formData := formData[field.id := Str(dom[hidden].value)];
        }
      } else if field.id in dom {
        var input := dom[field.id];
        if field.ftype == Checkbox {
          formData := formData[field.id := Num(if input.checked then 1.0 else 0.0)];
        } else {
          formData := formData[field.id := Str(input.value)];
        }
      }
      i := i + 1;
    }
    assert fields[..|fields|] == fields;
  }

  /** With distinct field ids the two clients send the same values, except
      that the current one also sends null for a file field without a hidden
      input, where the older one sends no key at all. */
  lemma {:induction false} SameDataButNulls(fields: seq<Field>, dom: Dom)
    requires forall i, j :: 0 <= i < j < |fields| ==> fields[i].id != fields[j].id
    ensures forall k :: k in SubmitData(fields, dom) ==>
              k in Collect(fields, dom).data && Collect(fields, dom).data[k] == SubmitData(fields, dom)[k]
    ensures forall k :: k in Collect(fields, dom).data && k !in SubmitData(fields, dom) ==>
              Collect(fields, dom).data[k] == Null
  {
    if |fields| > 0 {
      var n := |fields| - 1;
      var prefix := fields[..n];
      assert forall i :: 0 <= i < n ==> prefix[i] == fields[i];
      SameDataButNulls(prefix, dom);
      SubmitDataKeys(prefix, dom);
      var f := fields[n];
      var older, current := SubmitData(prefix, dom), Collect(prefix, dom).data;
      assert f.id !in older;
      var oe, ce := LegacyEntry(f, dom), Entry(f, dom);
      assert SubmitData(fields, dom) == if oe.Some? then older[f.id := oe.value] else older;
      assert Collect(fields, dom).data == if ce.Some? then current[f.id := ce.value] else current;
      AgreeStep(older, current, f.id, oe, ce);
    }
  }

  /** Adding one field's entries to two maps that agree this way keeps them agreeing. */
  lemma AgreeStep(older: Object, current: Object, id: string, oe: Option<Value>, ce: Option<Value>)
    requires id !in older
    requires forall k :: k in older ==> k in current && current[k] == older[k]
    requires forall k :: k in current && k !in older ==> current[k] == Null
    requires ce == oe || (oe.None? && ce == Some(Null))
    ensures var o := if oe.Some? then older[id := oe.value] else older;
            var c := if ce.Some? then current[id := ce.value] else current;
            (forall k :: k in o ==> k in c && c[k] == o[k]) &&
            (forall k :: k in c && k !in o ==> c[k] == Null)
  {
  }
}
