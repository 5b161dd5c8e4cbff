/**
 The server without sign-in (server-upnp.js): every table is created in one
 CREATE TABLE IF NOT EXISTS statement per type, and the submit, list, get and
 delete routes run the same bodies as the authenticated server with no
 middleware in front of them. It has no update route and no user routes.
 */
module UpnpServer {
  import opened JsValues
  import opened ScoutingConfig
  import opened Schema
  import opened Auth
  import opened Store
  import opened Server

  /** The column list of one type's CREATE TABLE: `id`, `timestamp`, then one
      column per field in configuration order. */
  method BuildColumns(fields: seq<Field>) returns (cols: seq<Column>)
    ensures cols == CreateColumns(fields)
  {
    cols := BaseColumns;
    assert CreateColumns(fields[..0]) == BaseColumns;
    var i := 0;
    while i < |fields|
      invariant 0 <= i <= |fields|
      invariant cols == CreateColumns(fields[..i])
    {
      var ct := UpnpColumnTypeFor(fields[i].ftype);
      cols := cols + [Column(fields[i].id, ct)];
      CreateColumnsSnoc(fields, i);
      i := i + 1;
    }
    assert fields[..|fields|] == fields;
  }

  /** `initializeDatabase`: one statement per type, in configuration order
      (the connection runs them in the order they were issued); every
      statement runs whatever happened to the others, and the start-up
      succeeds only if all of them did. */
  method InitializeDatabase(db: Database, config: Config) returns (ok: bool)
    requires db.Valid()
    modifies db
    ensures db.Valid()
    ensures Synced(db.schema, ok) == CreateAll(config, old(db.schema))
    ensures db.users == old(db.users) && db.rows == old(db.rows)
    ensures db.sequence == old(db.sequence) && db.files == old(db.files)
  {
    ok := true;
    var i := 0;
    while i < |config|
      invariant 0 <= i <= |config|
      invariant db.Valid()
      invariant db.users == old(db.users) && db.rows == old(db.rows)
      invariant db.sequence == old(db.sequence) && db.files == old(db.files)
      invariant CreateAll(config, old(db.schema)) ==
                Synced(CreateAll(config[i..], db.schema).tables, ok && CreateAll(config[i..], db.schema).ok)
    {
      assert config[i..][0] == config[i] && config[i..][1..] == config[i + 1..];
      var cols := BuildColumns(FieldsOf(config[i]));
      var created := db.CreateTable(SyncTableName(config[i]), cols);
      ok := ok && created;
      i := i + 1;
    }
  }

  /** The route table: only the four data routes exist; anything else is
      Express's 404. Nothing is ever refused for want of a sign-in. */
  function Respond(s: DbState, config: Config, now: string, req: Request): (h: Handled)
    ensures ValidState(s) ==> ValidState(h.state)
    ensures h.reply != Status(401) && h.reply != Status(403)
    ensures !(req.SubmitReq? || req.ListReq? || req.GetReq? || req.DeleteReq?) ==> h == Handled(s, Status(404))
  {
    match req
    case SubmitReq(k, data) => SubmitBody(s, config, k, data, now)
    case ListReq(k, sortBy, order) => Handled(s, ListBody(s, config, k, sortBy, order))
    case GetReq(k, id) => Handled(s, GetEntry(s, config, k, id))
    case DeleteReq(k, id) => DeleteBody(s, config, k, id)
    case _ => Handled(s, Status(404))
  }

  method Serve(db: Database, config: Config, now: string, req: Request) returns (reply: Reply)
    requires db.Valid()
    modifies db
    ensures db.Valid()
    ensures Handled(db.State(), reply) == Respond(old(db.State()), config, now, req)
  {
    match req
    case SubmitReq(k, data) => reply := SubmitRoute(db, config, k, data, now);
    case ListReq(k, sortBy, order) => reply := ListBody(db.State(), config, k, sortBy, order);
    case GetReq(k, id) => reply := GetEntry(db.State(), config, k, id);
    case DeleteReq(k, id) => reply := DeleteRoute(db, config, k, id);
    case _ => reply := Status(404);
  }

  /** On the data routes both servers share, the open server answers everyone
      exactly as the authenticated server answers an administrator. */
  lemma SameAsForAdmin(s: DbState, config: Config, session: Session, now: string, req: Request)
    requires req.SubmitReq? || req.ListReq? || req.GetReq? || req.DeleteReq?
    requires HasEmail(session) && RoleOf(s.users, session.email) == Some(Admin)
    ensures Respond(s, config, now, req) == Server.Respond(s, config, session, now, req)
  {
    GateByRole(s.users, session, UploadOrAdmin);
    GateByRole(s.users, session, AdminOnly);
  }
}
