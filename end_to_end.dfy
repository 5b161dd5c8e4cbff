/**
 How the browser client and the authenticated server fit together: what the
 client sends for a checkbox and what the server makes of it, what `/api/me`
 tells the client, the address the user form sends, and the sort a click asks for.
 */
module EndToEnd {
  import opened JsValues
  import opened ScoutingConfig
  import opened Auth
  import opened Store
  import Server
  import WebClient
  import Text

  /** An unchecked required checkbox is sent as 0: the client's check lets it
      through, the server reports it missing. An unchecked optional one is
      stored as NULL by submit, so the table shows `-` and not `No`, while an
      update keeps the 0 and the table shows `No`. */
  lemma {:induction false} UncheckedCheckbox(fields: seq<Field>, dom: WebClient.Dom, i: nat)
    requires i < |fields| && fields[i].ftype == Checkbox
    requires fields[i].id in dom && !dom[fields[i].id].checked
    requires forall j :: i < j < |fields| ==> fields[j].id != fields[i].id
    ensures var data := WebClient.Collect(fields, dom).data;
            Get(data, fields[i].id) == Num(0.0) &&
            !WebClient.ClientMissing(data, fields[i]) &&
            (fields[i].required ==> Server.ServerMissing(data, fields[i])) &&
            Server.InsertValues(fields, data)[i] == Null &&
            WebClient.FormatCell(fields[i], Null) == WebClient.Shown(Str("-")) &&
            Server.UpdateValues(fields, data)[i] == Num(0.0) &&
            WebClient.FormatCell(fields[i], Num(0.0)) == WebClient.Shown(Str("No"))
  {
    WebClient.CollectEntry(fields, dom, i);
  }

  /** The response the client's `checkAuth` sees for a `/api/me` reply: the
      JSON body of an answered request, not ok for an error status. */
  function MeResponse(r: Server.Reply): WebClient.MeFetch {
    if r.MeInfo? then
      WebClient.OkJson(map["user" := Obj,
                           "role" := (if r.userRole.Some? then Str(RoleName(r.userRole.value)) else Null),
                           "canUpload" := Bool(r.caps.canUpload),
                           "canEdit" := Bool(r.caps.canEdit),
                           "canManageUsers" := Bool(r.caps.canManageUsers)])
    else WebClient.NotOk
  }

  /** After `checkAuth`, the page offers uploading, editing and user
      management exactly when the server's middleware would let the request
      through; signed out, it offers none of them. */
  lemma MeFlagsMatchGates(s: DbState, session: Session)
    ensures var a := WebClient.AuthAfter(MeResponse(Server.Me(s, session)));
            (session.Anonymous? ==> a == WebClient.SignedOut) &&
            (session.SignedIn? ==>
              a.isAuthenticated &&
              (a.canUpload <==> Gate(s.users, session, UploadOrAdmin) == Verdict.Pass) &&
              (a.canEdit <==> Gate(s.users, session, AdminOnly) == Verdict.Pass) &&
              (a.canManageUsers <==> Gate(s.users, session, AdminOnly) == Verdict.Pass))
  {
    if session.SignedIn? {
      GateAgreesWithCapabilities(s.users, session);
    }
  }

  /** The address the user form sends is already in the form the server
      stores, so the server stores exactly what the client showed. */
  lemma ClientEmailIsStored(value: string)
    requires WebClient.AddUserEmail(value).Some?
    ensures var e := WebClient.AddUserEmail(value).value;
            e == NormalizeEmail(value) && NormalizeEmail(e) == e && e != ""
  {
    KeysAgree(value);
  }

  /** The sort a click asks for reaches the database as asked, when the column
      is one the list route accepts: the column itself, ascending exactly
      for `asc`. */
  lemma SortReachesServer(fields: seq<Field>, st: WebClient.SortState, column: string)
    requires column != "" && column in Server.SortableColumns(fields)
    ensures var next := WebClient.NextSort(st, column);
            Server.SanitizeSort(Some(fields), Str(next.column), Str(WebClient.OrderName(next.order))) ==
            Some(Server.SortSpec(column, next.order == WebClient.Asc))
  {
  }
}
