/**
 The browser client (public/app.js): the sort state of the data view, the
 permission flags read from `/api/me`, the form data a submission sends, the
 client's own missing-field check, the e-mail address `addUser` sends, the
 payload check of a scanned QR code and the way a table cell is shown.
 The page (the DOM) is a map from element id to input.
 */
module WebClient {
  import opened JsValues
  import opened ScoutingConfig
  import Text

  // ---------------------------------------------------------------------------
  // Sorting

  datatype Order = Asc | Desc

  /** The string sent as `sortOrder`. */
  function OrderName(o: Order): string {
    match o
    case Asc => "asc"
    case Desc => "desc"
  }

  datatype SortState = SortState(column: string, order: Order)

  /** `currentSortColumn = 'timestamp'`, `currentSortOrder = 'desc'` */
  const InitialSort := SortState("timestamp", Desc)

  /** `sortData(column)`: clicking the column already sorted on flips the
      order; clicking another column sorts on it ascending. */
  function NextSort(st: SortState, column: string): (r: SortState)
    ensures r.column == column
    ensures st.column == column ==> r.order != st.order
    ensures st.column != column ==> r.order == Asc
  {
    if st.column == column then SortState(column, if st.order == Asc then Desc else Asc)
    else SortState(column, Asc)
  }

  /** Two clicks on the current column restore the sort. */
  lemma SortToggles(st: SortState)
    ensures NextSort(NextSort(st, st.column), st.column) == st
  {
  }

  // ---------------------------------------------------------------------------
  // The permission flags

  /** The outcome of `fetch('/api/me')` and `res.json()`: one of them threw,
      the response was not ok, or it was ok with a JSON object. */
  datatype MeFetch = FetchThrew | NotOk | OkJson(body: Object)

  /** The auth state the page keeps. */
  datatype AuthState = AuthState(isAuthenticated: bool, currentUser: Value, canEdit: bool, canUpload: bool, canManageUsers: bool)

  const SignedOut := AuthState(false, Null, false, false, false)

  /** The state `checkAuth` leaves: everything false or null unless the
      response was ok, and then each flag only for a JSON `true`. */
  function AuthAfter(fetched: MeFetch): (a: AuthState)
    ensures !fetched.OkJson? ==> a == SignedOut
    ensures fetched.OkJson? ==> a.isAuthenticated
    ensures fetched.OkJson? ==> (a.canEdit <==> Get(fetched.body, "canEdit") == Bool(true))
    ensures fetched.OkJson? ==> (a.canUpload <==> Get(fetched.body, "canUpload") == Bool(true))
    ensures fetched.OkJson? ==> (a.canManageUsers <==> Get(fetched.body, "canManageUsers") == Bool(true))
    ensures fetched.OkJson? ==> a.currentUser == Or(Get(fetched.body, "user"), Null)
  {
    match fetched
    case OkJson(body) =>
      AuthState(true, Or(Get(body, "user"), Null),
                Get(body, "canEdit") == Bool(true), Get(body, "canUpload") == Bool(true),
                Get(body, "canManageUsers") == Bool(true))
    case _ => SignedOut
  }

  /** The module-level state of the page that its handlers reassign. */
  class Page {
    var sortColumn: string
    var sortOrder: Order
    var isAuthenticated: bool
    var currentUser: Value
    var canEditData: bool
    var canUploadData: bool
    var canManageUsers: bool

    function Sort(): SortState
      reads this
    {
      SortState(sortColumn, sortOrder)
    }

    function Auth(): AuthState
      reads this
    {
      AuthState(isAuthenticated, currentUser, canEditData, canUploadData, canManageUsers)
    }

    constructor ()
      ensures Sort() == InitialSort && Auth() == SignedOut
    {
      sortColumn, sortOrder := "timestamp", Desc;
      isAuthenticated, currentUser := false, Null;
      canEditData, canUploadData, canManageUsers := false, false, false;
    }

    /** `sortData` (the reload that follows is not modelled). */
    method SortData(column: string)
      modifies this`sortColumn, this`sortOrder
      ensures Sort() == NextSort(old(Sort()), column)
    {
      if sortColumn == column {
        sortOrder := if sortOrder == Asc then Desc else Asc;
      } else {
        sortColumn := column;
        sortOrder := Asc;
      }
    }

    /** `checkAuth`, given what the request to `/api/me` came back with. */
    method CheckAuth(fetched: MeFetch) returns (authenticated: bool)
      modifies this`isAuthenticated, this`currentUser, this`canEditData, this`canUploadData, this`canManageUsers
      ensures Auth() == AuthAfter(fetched)
      ensures authenticated == isAuthenticated
    {
      if fetched.OkJson? {
        var data := fetched.body;
        isAuthenticated := true;
        currentUser := Or(Get(data, "user"), Null);
        canEditData := Get(data, "canEdit") == Bool(true);
        canUploadData := Get(data, "canUpload") == Bool(true);
        canManageUsers := Get(data, "canManageUsers") == Bool(true);
      } else {
        isAuthenticated := false;
        currentUser := Null;
        canEditData := false;
        canUploadData := false;
        canManageUsers := false;
      }
      authenticated := isAuthenticated;
    }

    /** `logout`: the request's outcome is ignored and every flag is cleared. */
    method Logout()
      modifies this`isAuthenticated, this`currentUser, this`canEditData, this`canUploadData, this`canManageUsers
      ensures Auth() == SignedOut
    {
      isAuthenticated := false;
      currentUser := Null;
      canEditData := false;
      canUploadData := false;
      canManageUsers := false;
    }
  }

  // ---------------------------------------------------------------------------
  // Form data

  /** An input element: its `value` and its `checked` state. */
  datatype Input = Input(value: string, checked: bool)

  /** The page's inputs by element id. */
  type Dom = map<string, Input>

  /** The id of the hidden input holding a file field's uploaded path. */
  function HiddenId(f: Field): string {
    f.id + "-hidden"
  }

  /** What `collectFormData` stores for one field, if anything: a file field
      always gets the hidden input's value or null; any other field gets 1 or
      0 (checkbox) or its value, but only when its input exists. */
  function Entry(f: Field, dom: Dom): (r: Option<Value>)
    ensures f.ftype == File ==> r.Some?
    ensures f.ftype != File ==> (r.Some? <==> f.id in dom)
    ensures f.ftype == Checkbox && f.id in dom ==> r == Some(Num(if dom[f.id].checked then 1.0 else 0.0))
  {
    if f.ftype == File then Some(if HiddenId(f) in dom then Str(dom[HiddenId(f)].value) else Null)
    else if f.id !in dom then None
    else if f.ftype == Checkbox then Some(Num(if dom[f.id].checked then 1.0 else 0.0))
    else Some(Str(dom[f.id].value))
  }

  /** A field that clears `valid`: required, with an input, whose value is
      empty or, for a checkbox, that is unchecked. File fields never do. */
  predicate Invalid(f: Field, dom: Dom) {
    f.ftype != File && f.id in dom && f.required &&
    (dom[f.id].value == "" || (f.ftype == Checkbox && !dom[f.id].checked))
  }

  datatype Collected = Collected(data: Object, valid: bool)

  /** The `forEach` of `collectFormData` over the fields in order. */
  function Collect(fields: seq<Field>, dom: Dom): Collected {
    if |fields| == 0 then Collected(map[], true)
    else
      var c := Collect(fields[..|fields| - 1], dom);
      var f := fields[|fields| - 1];
      var e := Entry(f, dom);
      Collected(if e.Some? then c.data[f.id := e.value] else c.data, c.valid && !Invalid(f, dom))
  }

  /** `collectFormData(requireValid)` */
  method CollectFormData(fields: seq<Field>, dom: Dom, requireValid: bool) returns (r: Option<Object>)
    ensures r.Some? ==> r.value == Collect(fields, dom).data
    ensures r.None? <==> requireValid && !Collect(fields, dom).valid && Collect(fields, dom).data == map[]
  {
    var formData: Object := map[];
    var valid := true;
    var i := 0;
    while i < |fields|
      invariant 0 <= i <= |fields|
      invariant Collected(formData, valid) == Collect(fields[..i], dom)
    {
      var field := fields[i];
      assert fields[..i + 1][..i] == fields[..i];
      if field.ftype == File {
        var hidden := HiddenId(field);
        formData := formData[field.id := if hidden in dom then Str(dom[hidden].value) else Null];
      } else if field.id in dom {
        var input := dom[field.id];
        if field.ftype == Checkbox {
          formData := formData[field.id := Num(if input.checked then 1.0 else 0.0)];
        } else {
          formData := formData[field.id := Str(input.value)];
        }
        if field.required && (input.value == "" || (field.ftype == Checkbox && !input.checked)) {
          valid := false;
        }
      }
      i := i + 1;
    }
    assert fields[..|fields|] == fields;
    if !requireValid {
      return Some(formData);
    }
    r := if valid || |formData| > 0 then Some(formData) else None;
  }

  /** Exactly the fields that have an entry appear as keys. */
  lemma {:induction false} CollectKeys(fields: seq<Field>, dom: Dom)
    ensures forall k :: k in Collect(fields, dom).data <==>
              exists i :: 0 <= i < |fields| && fields[i].id == k && Entry(fields[i], dom).Some?
  {
    if |fields| > 0 {
      var n := |fields| - 1;
      CollectKeys(fields[..n], dom);
      assert forall i :: 0 <= i < n ==> fields[..n][i] == fields[i];
    }
  }

  /** `valid` stays true exactly when no field is invalid. */
  lemma {:induction false} CollectValid(fields: seq<Field>, dom: Dom)
    ensures Collect(fields, dom).valid <==> forall i :: 0 <= i < |fields| ==> !Invalid(fields[i], dom)
  {
    if |fields| > 0 {
      var n := |fields| - 1;
      CollectValid(fields[..n], dom);
      assert forall i :: 0 <= i < n ==> fields[..n][i] == fields[i];
    }
  }

  /** A field whose id no later field repeats keeps its own entry. */
  lemma {:induction false} CollectEntry(fields: seq<Field>, dom: Dom, i: nat)
    requires i < |fields| && Entry(fields[i], dom).Some?
    requires forall j :: i < j < |fields| ==> fields[j].id != fields[i].id
    ensures Get(Collect(fields, dom).data, fields[i].id) == Entry(fields[i], dom).value
  {
    var n := |fields| - 1;
    if i < n {
      CollectEntry(fields[..n], dom, i);
    }
  }

  /** A field that clears `valid` has an input and so an entry: the map is
      never empty when `valid` is false, and `collectFormData(true)` never
      returns null. */
  lemma {:induction false} CollectNeverNull(fields: seq<Field>, dom: Dom)
    ensures Collect(fields, dom).valid || Collect(fields, dom).data != map[]
  {
    if |fields| > 0 {
      var n := |fields| - 1;
      CollectNeverNull(fields[..n], dom);
      var c := Collect(fields[..n], dom);
      var f := fields[n];
      if !c.valid {
        var k :| k in c.data;
        assert k in Collect(fields, dom).data;
      } else if Invalid(f, dom) {
        assert f.id in Collect(fields, dom).data;
      }
    }
  }

  // ---------------------------------------------------------------------------
  // Client-side checks

  /** The submit handler's test `formData[f.id] == null || formData[f.id] === ''`. */
  predicate ClientMissing(data: Object, f: Field) {
    f.required && (IsNullish(Get(data, f.id)) || Get(data, f.id) == Str(""))
  }

  /** The labels the submit handler reports, in configuration order. */
  function MissingLabels(fields: seq<Field>, data: Object): (r: seq<string>)
    ensures r == [] <==> forall i :: 0 <= i < |fields| ==> !ClientMissing(data, fields[i])
    ensures forall l :: l in r <==> exists i :: 0 <= i < |fields| && ClientMissing(data, fields[i]) && fields[i].caption == l
  {
    LabelsWhere(fields, f => ClientMissing(data, f))
  }

  /** The alert lists each missing field's label once, in configuration order. */
  lemma MissingInOrder(before: seq<Field>, f: Field, after: seq<Field>, data: Object)
    ensures MissingLabels(before + [f] + after, data) ==
            MissingLabels(before, data) + (if ClientMissing(data, f) then [f.caption] else []) + MissingLabels(after, data)
  {
    LabelsInOrder(before, f, after, g => ClientMissing(data, g));
  }

  /** `(emailInput.value || '').trim().toLowerCase()`, and no request when it is empty. */
  function AddUserEmail(value: string): (r: Option<string>)
    ensures r.None? <==> Text.ToLower(Text.Trim(value)) == ""
    ensures r.Some? ==> r.value == Text.ToLower(Text.Trim(value))
  {
    var email := Text.ToLower(Text.Trim(value));
    if email == "" then None else Some(email)
  }

  /** The check on a decoded QR payload: `type` and `data` both truthy. */
  predicate PayloadValid(parsed: Object): (ok: bool)
    ensures ok ==> "type" in parsed && "data" in parsed
    ensures ok ==> parsed["type"] != Str("") && !IsNullish(parsed["data"])
    ensures Truthy(Get(parsed, "type")) && Truthy(Get(parsed, "data")) ==> ok
  {
    Truthy(Get(parsed, "type")) && Truthy(Get(parsed, "data"))
  }

  /** The payload `createQRCode` encodes: the selected type and the collected
      form data, an object however few fields were filled in. */
  function QrPayload(typeKey: string): Object {
    map["type" := Str(typeKey), "data" := Obj]
  }

  /** A code made for a selected type is accepted when scanned, even with an
      empty form; only a missing type is refused. */
  lemma QrPayloadAccepted(typeKey: string)
    ensures PayloadValid(QrPayload(typeKey)) <==> typeKey != ""
  {
  }

  // ---------------------------------------------------------------------------
  // The data table

  /** The image path of a file cell: kept when it starts with `http` or `/`,
      otherwise made relative to the origin. */
  function ImageSrc(value: string): (r: string)
    ensures Text.StartsWith(r, "/") || Text.StartsWith(r, "http")
    ensures Text.StartsWith(value, "http") || Text.StartsWith(value, "/") ==> r == value
    ensures !(Text.StartsWith(value, "http") || Text.StartsWith(value, "/")) ==> r == "/" + value
  {
    if Text.StartsWith(value, "http") then value
    else if Text.StartsWith(value, "/") then value
    else "/" + value
  }

  /** Normalising an image path twice changes nothing more. */
  lemma ImageSrcIdempotent(value: string)
    ensures ImageSrc(ImageSrc(value)) == ImageSrc(value)
  {
  }

  /** What a cell shows: an image, a text, or nothing because `startsWith`
      threw on a truthy file value that is not a string (the whole table then
      shows the load error). */
  datatype Cell = Image(src: string) | Shown(text: Value) | RenderError

  function FormatCell(f: Field, value: Value): (c: Cell)
    ensures f.ftype == File && Truthy(value) && value.Str? ==> c == Image(ImageSrc(value.s))
    ensures c == RenderError <==> f.ftype == File && Truthy(value) && !value.Str?
    ensures !(f.ftype == File && Truthy(value)) && IsNullish(value) ==> c == Shown(Str("-"))
    ensures !(f.ftype == File && Truthy(value)) && !IsNullish(value) && f.ftype == Checkbox ==>
              c == Shown(Str(if Truthy(value) then "Yes" else "No"))
    ensures !(f.ftype == File && Truthy(value)) && !IsNullish(value) && f.ftype != Checkbox ==> c == Shown(value)
  {
    if f.ftype == File && Truthy(value) then
      if value.Str? then Image(ImageSrc(value.s)) else RenderError
    else if IsNullish(value) then Shown(Str("-"))
    else if f.ftype == Checkbox then Shown(Str(if Truthy(value) then "Yes" else "No"))
    else Shown(value)
  }
}
