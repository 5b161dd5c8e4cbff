/**
 The authenticated server (server.js): start-up (initial administrators and
 the additive schema synchroniser), the scouting-data routes (submit, list,
 get, update, delete), `/api/me` and the user-management routes.

 Each route body is a function from the database state before the request to
 the state after it and the reply; the handler methods run the statements on a
 `Database` and are proved to agree with those functions.
 */
module Server {
  import opened JsValues
  import opened ScoutingConfig
  import opened Schema
  import opened Auth
  import opened Store
  import Text

  /** The sort the list route asks the database for. */
  datatype SortSpec = SortSpec(column: string, ascending: bool)

  /** What a route answers. `Status(code)` is an error reply with that status;
      `Crash` is an exception thrown inside a database callback, which ends
      the process instead of answering. */
  datatype Reply =
    | Saved(id: nat)
    | Invalid(missing: seq<string>)
    | Listed(sort: SortSpec, rows: seq<Object>)
    | Found(row: Object)
    | Done
    | UserAdded(email: string, role: Role)
    | RoleSet(email: string, role: Role)
    | MeInfo(userRole: Option<Role>, caps: Capabilities)
    | Status(code: int)
    | Crash

  /** A request's effect: the state after it and the reply. */
  datatype Handled = Handled(state: DbState, reply: Reply)

  // ---------------------------------------------------------------------------
  // Start-up

  /** `initializeDatabase`: the initial administrators are inserted with
      INSERT OR IGNORE, then each scouting type is synchronised in turn; the
      first failing statement stops the start-up. */
  method InitializeDatabase(db: Database, config: Config, admins: seq<string>) returns (ok: bool)
    requires db.Valid()
    modifies db`users, db`schema
    ensures db.Valid()
    ensures db.users == InsertOrIgnore(old(db.users), admins, Admin)
    ensures Synced(db.schema, ok) == SyncAll(config, old(db.schema))
  {
    SeedAdmins(db, admins);
    var i := 0;
    while i < |config|
      invariant 0 <= i <= |config|
      invariant db.Valid() && db.users == InsertOrIgnore(old(db.users), admins, Admin)
      invariant SyncAll(config[i..], db.schema) == SyncAll(config, old(db.schema))
    {
      assert config[i..][0] == config[i] && config[i..][1..] == config[i + 1..];
      var synced := SyncTypeOn(db, config[i]);
      if !synced {
        return false;
      }
      i := i + 1;
    }
    ok := true;
  }

  /** INSERT OR IGNORE of each initial administrator, in order. */
  method SeedAdmins(db: Database, admins: seq<string>)
    modifies db`users
    ensures db.users == InsertOrIgnore(old(db.users), admins, Admin)
  {
    var k := 0;
    while k < |admins|
      invariant 0 <= k <= |admins|
      invariant InsertOrIgnore(db.users, admins[k..], Admin) == InsertOrIgnore(old(db.users), admins, Admin)
    {
      assert admins[k..][1..] == admins[k + 1..];
      db.InsertUserOrIgnore(admins[k], Admin);
      k := k + 1;
    }
  }

  /** One scouting type: create its table with `id` and `timestamp` if it is
      missing, read `PRAGMA table_info` once, then add, in order, each
      configured column that listing did not contain. */
  method SyncTypeOn(db: Database, t: ScoutingType) returns (ok: bool)
    requires db.Valid()
    modifies db`schema
    ensures db.Valid()
    ensures Synced(db.schema, ok) == SyncType(t, old(db.schema))
  {
    assert !HasDuplicate(BaseColumns) by {
      assert Text.ToLower("id") != Text.ToLower("timestamp");
    }
    var name := SyncTableName(t);
    ghost var created := CreateIfMissing(db.schema, name);
    var _ := db.CreateTable(name, BaseColumns);
    assert db.schema == created;
    var existing := db.TableInfo(name);
    ok := AddColumns(db, name, FieldsOf(t), existing);
  }

  /** The `ALTER TABLE ... ADD COLUMN` chain of one type, stopping at the
      first failure. */
  method AddColumns(db: Database, name: string, fields: seq<Field>, existing: seq<string>) returns (ok: bool)
    requires db.Valid() && name in db.schema
    modifies db`schema
    ensures db.Valid() && name in db.schema && db.schema == old(db.schema)[name := db.schema[name]]
    ensures Added(db.schema[name], ok) == AddMissing(fields, existing, old(db.schema)[name])
  {
    var j := 0;
    while j < |fields|
      invariant 0 <= j <= |fields|
      invariant db.Valid() && name in db.schema && db.schema == old(db.schema)[name := db.schema[name]]
      invariant AddMissing(fields[j..], existing, db.schema[name]) == AddMissing(fields, existing, old(db.schema)[name])
    {
      assert fields[j..][0] == fields[j] && fields[j..][1..] == fields[j + 1..];
      if fields[j].id !in existing {
        var added := db.AddColumn(name, ColumnFor(fields[j]));
        if !added {
          return false;
        }
      }
      j := j + 1;
    }
    ok := true;
  }

  // ---------------------------------------------------------------------------
  // Pure rules of the data routes

  /** The submit route's test `f.required && f.type !== 'file' && !data[f.id]`. */
  predicate ServerMissing(data: Object, f: Field) {
    f.required && f.ftype != File && !Truthy(Get(data, f.id))
  }

  /** `missingFields`: the labels, in configuration order, of the required
      non-file fields whose submitted value is falsy. */
  function MissingLabels(fields: seq<Field>, data: Object): (r: seq<string>)
    ensures r == [] <==> forall i :: 0 <= i < |fields| ==> !ServerMissing(data, fields[i])
    ensures forall l :: l in r <==> exists i :: 0 <= i < |fields| && ServerMissing(data, fields[i]) && fields[i].caption == l
  {
    LabelsWhere(fields, f => ServerMissing(data, f))
  }

  /** The submit route lists each missing field's label once, in configuration
      order. */
  lemma MissingInOrder(before: seq<Field>, f: Field, after: seq<Field>, data: Object)
    ensures MissingLabels(before + [f] + after, data) ==
            MissingLabels(before, data) + (if ServerMissing(data, f) then [f.caption] else []) + MissingLabels(after, data)
  {
    LabelsInOrder(before, f, after, g => ServerMissing(data, g));
  }

  /** `fieldIds.map(id => data[id] || null)`: the values the submit route binds. */
  function InsertValues(fields: seq<Field>, data: Object): (r: seq<Value>)
    ensures |r| == |fields|
    ensures forall i :: 0 <= i < |fields| ==> r[i] == Null || (Truthy(r[i]) && r[i] == Get(data, fields[i].id))
    ensures forall i :: 0 <= i < |fields| ==> (r[i] == Null <==> !Truthy(Get(data, fields[i].id)))
  {
    seq(|fields|, i requires 0 <= i < |fields| => Or(Get(data, fields[i].id), Null))
  }

  /** `fieldIds.map(fid => data[fid] != null ? data[fid] : null)`: the values
      the update route binds; only null and undefined become null. */
  function UpdateValues(fields: seq<Field>, data: Object): (r: seq<Value>)
    ensures |r| == |fields|
    ensures forall i :: 0 <= i < |fields| ==> !r[i].Undefined?
    ensures forall i :: 0 <= i < |fields| ==> (r[i] == Null <==> IsNullish(Get(data, fields[i].id)))
    ensures forall i :: 0 <= i < |fields| && !IsNullish(Get(data, fields[i].id)) ==> r[i] == Get(data, fields[i].id)
  {
    seq(|fields|, i requires 0 <= i < |fields| =>
      if !IsNullish(Get(data, fields[i].id)) then Get(data, fields[i].id) else Null)
  }

  /** The columns the list route accepts: `['timestamp', 'id', ...fieldIds]`. */
  function SortableColumns(fields: seq<Field>): seq<string> {
    ["timestamp", "id"] + FieldIds(fields)
  }

  /** The list route's sort: `req.query.sortBy || 'timestamp'` if it is one of
      the accepted columns, else `timestamp`; ascending only for the exact
      string `asc`. `typeConfig.fields.map` throws when the type has no field
      list, which is `None` here. */
  function SanitizeSort(fields: Option<seq<Field>>, sortBy: Value, sortOrder: Value): (r: Option<SortSpec>)
    ensures r.None? <==> fields.None?
    ensures r.Some? ==> (r.value.ascending <==> sortOrder == Str("asc"))
    ensures r.Some? ==> r.value.column in SortableColumns(fields.value)
    ensures r.Some? && Truthy(sortBy) && sortBy.Str? && sortBy.s in SortableColumns(fields.value) ==>
              r.value.column == sortBy.s
    ensures r.Some? && !(Truthy(sortBy) && sortBy.Str? && sortBy.s in SortableColumns(fields.value)) ==>
              r.value.column == "timestamp"
  {
    match fields
    case None => None
    case Some(fs) =>
      var column := Or(sortBy, Str("timestamp"));
      var order := sortOrder == Str("asc");
      var valid := SortableColumns(fs);
      Some(SortSpec(if column.Str? && column.s in valid then column.s else "timestamp", order))
  }

  // ---------------------------------------------------------------------------
  // Route bodies as functions of the state

  /** `POST /api/submit/:type` after the middleware. */
  function SubmitBody(s: DbState, config: Config, typeKey: string, data: Object, now: string): (h: Handled)
    ensures ValidState(s) ==> ValidState(h.state)
    ensures Lookup(config, typeKey).None? ==> h == Handled(s, Status(404))
    ensures !h.reply.Saved? ==> h.state == s
    ensures h.state.schema == s.schema && h.state.users == s.users && h.state.files == s.files
    ensures h.reply.Saved? || h.reply.Invalid? || h.reply == Status(404) || h.reply == Status(500)
    ensures h.reply.Saved? <==>
              Lookup(config, typeKey).Some? &&
              MissingLabels(FieldsOf(Lookup(config, typeKey).value), data) == [] &&
              HandlerTableName(Lookup(config, typeKey).value) in s.schema &&
              Writable(s.schema[HandlerTableName(Lookup(config, typeKey).value)], FieldIds(FieldsOf(Lookup(config, typeKey).value)))
    ensures h.reply.Invalid? ==> h.reply.missing != [] && h.reply.missing == MissingLabels(FieldsOf(Lookup(config, typeKey).value), data)
    ensures h.reply.Saved? ==>
              var t := Lookup(config, typeKey).value;
              var table := HandlerTableName(t);
              h.reply.id == SeqOf(s, table) + 1 &&
              h.state.rows == s.rows[table := RowsIn(s, table) + [NewRow(h.reply.id, FieldIds(FieldsOf(t)), InsertValues(FieldsOf(t), data), now)]]
  {
    match Lookup(config, typeKey)
    case None => Handled(s, Status(404))
    case Some(t) =>
      var fields := FieldsOf(t);
      var missing := MissingLabels(fields, data);
      if |missing| > 0 then Handled(s, Invalid(missing))
      else
        var ran := InsertRun(s, HandlerTableName(t), FieldIds(fields), InsertValues(fields, data), now);
        if ran.result.RunErr? then Handled(s, Status(500))
        else Handled(ran.state, Saved(ran.result.lastID))
  }

  /** `GET /api/data/:type` */
  function ListBody(s: DbState, config: Config, typeKey: string, sortBy: Value, sortOrder: Value): (r: Reply)
    ensures Lookup(config, typeKey).None? ==> r == Status(404)
    ensures r.Listed? ==> (Lookup(config, typeKey).Some? &&
              Some(r.sort) == SanitizeSort(Lookup(config, typeKey).value.fields, sortBy, sortOrder) &&
              |r.rows| == |RowsIn(s, HandlerTableName(Lookup(config, typeKey).value))|)
    ensures r.Listed? || r == Status(404) || r == Status(500)
    ensures Lookup(config, typeKey).Some? ==>
              var t := Lookup(config, typeKey).value;
              var table := HandlerTableName(t);
              var spec := SanitizeSort(t.fields, sortBy, sortOrder);
              (r.Listed? <==> spec.Some? && table in s.schema && NameClash(spec.value.column, s.schema[table])) &&
              (r.Listed? ==> forall i :: 0 <= i < |r.rows| ==> r.rows[i] == RowObject(s.schema[table], RowsIn(s, table)[i]))
  {
    match Lookup(config, typeKey)
    case None => Status(404)
    case Some(t) =>
      match SanitizeSort(t.fields, sortBy, sortOrder)
      case None => Status(500)
      case Some(spec) =>
        match SelectAll(s, HandlerTableName(t), spec.column)
        case ListErr => Status(500)
        case Rows(objs) => Listed(spec, objs)
  }

  /** `GET /api/data/:type/:id` */
  function GetEntry(s: DbState, config: Config, typeKey: string, id: int): (r: Reply)
    ensures Lookup(config, typeKey).None? ==> r == Status(404)
    ensures r.Found? || r == Status(404) || r == Status(500)
    ensures r.Found? ==> (Lookup(config, typeKey).Some? &&
              var table := HandlerTableName(Lookup(config, typeKey).value);
              table in s.schema &&
              exists i :: 0 <= i < |RowsIn(s, table)| && RowsIn(s, table)[i].id == id &&
                r.row == RowObject(s.schema[table], RowsIn(s, table)[i]))
    ensures Lookup(config, typeKey).Some? ==>
              var table := HandlerTableName(Lookup(config, typeKey).value);
              (r == Status(500) <==> table !in s.schema) &&
              (r == Status(404) <==> table in s.schema && CountId(RowsIn(s, table), id) == 0) &&
              (r.Found? <==> table in s.schema && CountId(RowsIn(s, table), id) > 0)
  {
    match Lookup(config, typeKey)
    case None => Status(404)
    case Some(t) =>
      match GetById(s, HandlerTableName(t), id)
      case FetchErr => Status(500)
      case NoRow => Status(404)
      case OneRow(obj) => Found(obj)
  }

  /** `PUT /api/data/:type/:id` after the middleware: every configured field is
      overwritten, an omitted one with null; no matching row is a 404. */
  function UpdateBody(s: DbState, config: Config, typeKey: string, id: int, data: Object): (h: Handled)
    ensures ValidState(s) ==> ValidState(h.state)
    ensures Lookup(config, typeKey).None? ==> h == Handled(s, Status(404))
    ensures h.reply == Done || h.reply == Status(404) || h.reply == Status(500)
    ensures h.reply == Status(500) ==> h.state == s
    ensures h.reply == Done ==>
              var t := Lookup(config, typeKey).value;
              var table := HandlerTableName(t);
              CountId(RowsIn(s, table), id) > 0 &&
              h.state == s.(rows := s.rows[table := UpdateId(RowsIn(s, table), id, UpdateCells(FieldIds(FieldsOf(t)), UpdateValues(FieldsOf(t), data)))])
    ensures Lookup(config, typeKey).Some? ==>
              var t := Lookup(config, typeKey).value;
              var table := HandlerTableName(t);
              var ok := table in s.schema && Writable(s.schema[table], FieldIds(FieldsOf(t)));
              (h.reply == Status(500) <==> !ok) &&
              (h.reply == Done <==> ok && CountId(RowsIn(s, table), id) > 0) &&
              (h.reply == Status(404) <==> ok && CountId(RowsIn(s, table), id) == 0)
    ensures h.reply == Status(404) ==>
              h.state.schema == s.schema && h.state.sequence == s.sequence &&
              h.state.users == s.users && h.state.files == s.files &&
              forall table :: RowsIn(h.state, table) == RowsIn(s, table)
  {
    match Lookup(config, typeKey)
    case None => Handled(s, Status(404))
    case Some(t) =>
      var fields := FieldsOf(t);
      var ran := UpdateRun(s, HandlerTableName(t), FieldIds(fields), UpdateValues(fields, data), id);
      if ran.result.RunErr? then Handled(s, Status(500))
      else if ran.result.changes == 0 then Handled(ran.state, Status(404))
      else Handled(ran.state, Done)
  }

  /** The file the delete route removes: a truthy `robotPicture` of the row
      about to be deleted (no other file field is looked at). */
  function PictureOf(fetched: Fetched): Value {
    if fetched.OneRow? then Get(fetched.obj, "robotPicture") else Undefined
  }

  /** `DELETE /api/data/:type/:id` after the middleware. The picture is unlinked
      when it exists and the row is deleted whether or not it did; a truthy
      picture that is not a string makes `path.join` throw in the callback. */
  function DeleteBody(s: DbState, config: Config, typeKey: string, id: int): (h: Handled)
    ensures ValidState(s) ==> ValidState(h.state)
    ensures Lookup(config, typeKey).None? ==> h == Handled(s, Status(404))
    ensures h.reply == Done || h.reply == Status(404) || h.reply == Status(500) || h.reply == Crash
    ensures h.reply == Crash || h.reply == Status(500) ==> h.state == s
    ensures h.reply == Done ==>
              var table := HandlerTableName(Lookup(config, typeKey).value);
              var pic := PictureOf(GetById(s, table, id));
              (Truthy(pic) ==> pic.Str?) && CountId(RowsIn(s, table), id) > 0 &&
              h.state == s.(rows := s.rows[table := RemoveId(RowsIn(s, table), id)],
                            files := if Truthy(pic) then s.files - {pic.s} else s.files)
    ensures Lookup(config, typeKey).Some? ==>
              var table := HandlerTableName(Lookup(config, typeKey).value);
              var pic := PictureOf(GetById(s, table, id));
              (h.reply == Status(500) <==> table !in s.schema) &&
              (h.reply == Crash <==> table in s.schema && Truthy(pic) && !pic.Str?) &&
              (h.reply == Done <==> table in s.schema && !(Truthy(pic) && !pic.Str?) && CountId(RowsIn(s, table), id) > 0) &&
              (h.reply == Status(404) ==> CountId(RowsIn(s, table), id) == 0)
    ensures h.reply == Status(404) ==>
              h.state.schema == s.schema && h.state.sequence == s.sequence &&
              h.state.users == s.users && h.state.files == s.files &&
              forall table :: RowsIn(h.state, table) == RowsIn(s, table)
  {
    match Lookup(config, typeKey)
    case None => Handled(s, Status(404))
    case Some(t) =>
      var table := HandlerTableName(t);
      var fetched := GetById(s, table, id);
      if fetched.FetchErr? then Handled(s, Status(500))
      else
        var pic := PictureOf(fetched);
        if Truthy(pic) && !pic.Str? then Handled(s, Crash)
        else
          var s1 := if Truthy(pic) then s.(files := s.files - {pic.s}) else s;
          assert RowsIn(s1, table) == RowsIn(s, table) && s1 == s.(files := s1.files);
          assert ValidState(s) ==> ValidState(s1) by {
            if ValidState(s) { ValidIgnoresUsers(s, s.users, s1.files); }
          }
          var ran := DeleteRun(s1, table, id);
          if ran.result.RunErr? then Handled(s1, Status(500))
          else if ran.result.changes == 0 then
            RemoveAbsent(RowsIn(s1, table), id);
            Handled(ran.state, Status(404))
          else Handled(ran.state, Done)
  }

  /** `GET /api/me`: the role and the flags derived from it. */
  function Me(s: DbState, session: Session): (r: Reply)
    ensures session.Anonymous? <==> r == Status(401)
    ensures session.SignedIn? ==> r.MeInfo?
    ensures r.MeInfo? ==> r.userRole == RoleOf(s.users, session.email) && r.caps == CapabilitiesOf(r.userRole)
  {
    match session
    case Anonymous => Status(401)
    case SignedIn(email) =>
      var role := RoleOf(s.users, email);
      MeInfo(role, CapabilitiesOf(role))
  }

  /** `POST /api/users` after the middleware. `(email || '').trim()` throws
      when the email is truthy but not a string. */
  function AddUserBody(s: DbState, body: Object): (h: Handled)
    ensures ValidState(s) ==> ValidState(h.state)
    ensures !h.reply.UserAdded? ==> h.state == s
    ensures h.reply.UserAdded? || h.reply in {Status(400), Status(409), Status(500)}
    ensures h.reply == Status(409) <==>
              Or(Get(body, "email"), Str("")).Str? && NormalizeEmail(Or(Get(body, "email"), Str("")).s) != "" &&
              ParseRole(Get(body, "role")).Some? && NormalizeEmail(Or(Get(body, "email"), Str("")).s) in s.users
    ensures h.reply.UserAdded? ==>
              h.reply.email != "" && h.reply.email !in s.users &&
              Some(h.reply.role) == ParseRole(Get(body, "role")) &&
              Or(Get(body, "email"), Str("")).Str? &&
              h.reply.email == NormalizeEmail(Or(Get(body, "email"), Str("")).s) &&
              h.state == s.(users := s.users[h.reply.email := h.reply.role])
    ensures var raw := Or(Get(body, "email"), Str(""));
            (h.reply == Status(500) <==> !raw.Str?) &&
            (h.reply == Status(400) <==> raw.Str? && (NormalizeEmail(raw.s) == "" || ParseRole(Get(body, "role")).None?)) &&
            (h.reply.UserAdded? <==> raw.Str? && NormalizeEmail(raw.s) != "" && ParseRole(Get(body, "role")).Some? &&
                                     NormalizeEmail(raw.s) !in s.users)
  {
    var raw := Or(Get(body, "email"), Str(""));
    if !raw.Str? then Handled(s, Status(500))
    else
      var email := NormalizeEmail(raw.s);
      if email == "" then Handled(s, Status(400))
      else
        match ParseRole(Get(body, "role"))
        case None => Handled(s, Status(400))
        case Some(role) =>
          var ran := InsertUserRun(s, email, role);
          if ran.result.RunErr? then Handled(s, if ran.result.unique then Status(409) else Status(500))
          else Handled(ran.state, UserAdded(email, role))
  }

  /** `PUT /api/users/:email` after the middleware; `param` is the decoded path segment. */
  function SetRoleBody(s: DbState, param: string, body: Object): (h: Handled)
    ensures ValidState(s) ==> ValidState(h.state)
    ensures !h.reply.RoleSet? ==> h.state == s
    ensures h.reply.RoleSet? || h.reply == Status(400) || h.reply == Status(404)
    ensures h.reply == Status(404) <==>
              NormalizeEmail(param) != "" && ParseRole(Get(body, "role")).Some? && NormalizeEmail(param) !in s.users
    ensures h.reply.RoleSet? ==>
              h.reply.email == NormalizeEmail(param) && h.reply.email in s.users &&
              Some(h.reply.role) == ParseRole(Get(body, "role")) &&
              h.state == s.(users := s.users[h.reply.email := h.reply.role])
    ensures h.reply == Status(400) <==> NormalizeEmail(param) == "" || ParseRole(Get(body, "role")).None?
    ensures h.reply.RoleSet? <==> NormalizeEmail(param) != "" && ParseRole(Get(body, "role")).Some? && NormalizeEmail(param) in s.users
  {
    var email := NormalizeEmail(param);
    if email == "" then Handled(s, Status(400))
    else
      match ParseRole(Get(body, "role"))
      case None => Handled(s, Status(400))
      case Some(role) =>
        var ran := SetUserRoleRun(s, email, role);
        if ran.result.changes == 0 then Handled(ran.state, Status(404))
        else Handled(ran.state, RoleSet(email, role))
  }

  /** `DELETE /api/users/:email` after the middleware. */
  function RemoveUserBody(s: DbState, param: string): (h: Handled)
    ensures ValidState(s) ==> ValidState(h.state)
    ensures h.reply == Done || h.reply == Status(400) || h.reply == Status(404)
    ensures h.reply == Status(400) <==> NormalizeEmail(param) == ""
    ensures h.reply == Status(404) <==> NormalizeEmail(param) != "" && NormalizeEmail(param) !in s.users
    ensures h.state == if h.reply == Done then s.(users := s.users - {NormalizeEmail(param)}) else s
  {
    var email := NormalizeEmail(param);
    if email == "" then Handled(s, Status(400))
    else
      var ran := DeleteUserRun(s, email);
      if ran.result.changes == 0 then Handled(s, Status(404))
      else Handled(ran.state, Done)
  }

  /** A route behind `requireAuth` and a role middleware: refused requests get
      the middleware's status and change nothing; the others get the body. */
  function Guarded(s: DbState, session: Session, need: Need, body: Handled): (h: Handled)
    ensures Gate(s.users, session, need).Deny? ==> h == Handled(s, Status(Gate(s.users, session, need).code))
    ensures Gate(s.users, session, need) == Pass ==> h == body
    ensures !HasEmail(session) ==> h == Handled(s, Status(401))
    ensures HasEmail(session) && need == AdminOnly && RoleOf(s.users, session.email) != Some(Admin) ==> h == Handled(s, Status(403))
    ensures ValidState(s) && ValidState(body.state) ==> ValidState(h.state)
  {
    match Gate(s.users, session, need)
    case Deny(code) => Handled(s, Status(code))
    case Pass => body
  }

  /** The routes of the scouting data and the user table, with their path
      parameters (`id` already an integer, `email` already URI-decoded),
      query and body. */
  datatype Request =
    | SubmitReq(typeKey: string, data: Object)
    | ListReq(typeKey: string, sortBy: Value, sortOrder: Value)
    | GetReq(typeKey: string, id: int)
    | UpdateReq(typeKey: string, id: int, data: Object)
    | DeleteReq(typeKey: string, id: int)
    | MeReq
    | AddUserReq(body: Object)
    | SetRoleReq(param: string, body: Object)
    | RemoveUserReq(param: string)

  /** The routes that only read. */
  predicate ReadOnly(req: Request) {
    req.ListReq? || req.GetReq? || req.MeReq?
  }

  /** `/api/me` and the user-management routes. */
  predicate UserRoute(req: Request) {
    req.MeReq? || req.AddUserReq? || req.SetRoleReq? || req.RemoveUserReq?
  }

  /** The data routes: list and get are open, submit needs the upload or admin
      role, update and delete the admin role. `now` is the clock reading an
      INSERT stamps. */
  function RespondData(s: DbState, config: Config, session: Session, now: string, req: Request): (h: Handled)
    requires !UserRoute(req)
    ensures ValidState(s) ==> ValidState(h.state)
    ensures h.state.users == s.users
  {
    match req
    case SubmitReq(k, data) => Guarded(s, session, UploadOrAdmin, SubmitBody(s, config, k, data, now))
    case ListReq(k, sortBy, order) => Handled(s, ListBody(s, config, k, sortBy, order))
    case GetReq(k, id) => Handled(s, GetEntry(s, config, k, id))
    case UpdateReq(k, id, data) => Guarded(s, session, AdminOnly, UpdateBody(s, config, k, id, data))
    case DeleteReq(k, id) => Guarded(s, session, AdminOnly, DeleteBody(s, config, k, id))
  }

  /** The user routes: `/api/me` is open, the others need the admin role. */
  function RespondUsers(s: DbState, session: Session, req: Request): (h: Handled)
    requires UserRoute(req)
    ensures ValidState(s) ==> ValidState(h.state)
    ensures h.state == s.(users := h.state.users)
  {
    match req
    case MeReq => Handled(s, Me(s, session))
    case AddUserReq(body) => Guarded(s, session, AdminOnly, AddUserBody(s, body))
    case SetRoleReq(param, body) => Guarded(s, session, AdminOnly, SetRoleBody(s, param, body))
    case RemoveUserReq(param) => Guarded(s, session, AdminOnly, RemoveUserBody(s, param))
  }

  /** The route table of the authenticated server. */
  function Respond(s: DbState, config: Config, session: Session, now: string, req: Request): (h: Handled)
    ensures ValidState(s) ==> ValidState(h.state)
  {
    if UserRoute(req) then RespondUsers(s, session, req) else RespondData(s, config, session, now, req)
  }

  /** The routes that only read change nothing. */
  lemma ReadsChangeNothing(s: DbState, config: Config, session: Session, now: string, req: Request)
    requires ReadOnly(req)
    ensures Respond(s, config, session, now, req).state == s
  {
  }

  /** Every route that writes refuses an anonymous request with 401, and every
      one but submit refuses a signed-in user without the admin role with 403;
      neither changes anything. */
  lemma RespondRefuses(s: DbState, config: Config, session: Session, now: string, req: Request)
    requires !ReadOnly(req)
    ensures !HasEmail(session) ==> Respond(s, config, session, now, req) == Handled(s, Status(401))
    ensures !req.SubmitReq? && HasEmail(session) && RoleOf(s.users, session.email) != Some(Admin) ==>
              Respond(s, config, session, now, req) == Handled(s, Status(403))
  {
    var h := Respond(s, config, session, now, req);
    match req
    case SubmitReq(k, data) =>
      assert h == Guarded(s, session, UploadOrAdmin, SubmitBody(s, config, k, data, now));
    case UpdateReq(k, id, data) =>
      assert h == Guarded(s, session, AdminOnly, UpdateBody(s, config, k, id, data));
    case DeleteReq(k, id) =>
      assert h == Guarded(s, session, AdminOnly, DeleteBody(s, config, k, id));
    case AddUserReq(body) =>
      assert h == Guarded(s, session, AdminOnly, AddUserBody(s, body));
    case SetRoleReq(param, body) =>
      assert h == Guarded(s, session, AdminOnly, SetRoleBody(s, param, body));
    case RemoveUserReq(param) =>
      assert h == Guarded(s, session, AdminOnly, RemoveUserBody(s, param));
  }

  // ---------------------------------------------------------------------------
  // Handlers on the database

  /** The body of the submit route, shared with the ungated server. */
  method SubmitRoute(db: Database, config: Config, typeKey: string, data: Object, now: string) returns (reply: Reply)
    requires db.Valid()
    modifies db`rows, db`sequence
    ensures db.Valid()
    ensures Handled(db.State(), reply) == SubmitBody(old(db.State()), config, typeKey, data, now)
  {
    var t := Lookup(config, typeKey);
    if t.None? {
      return Status(404);
    }
    var fields := FieldsOf(t.value);
    var missing := MissingLabels(fields, data);
    if |missing| > 0 {
      return Invalid(missing);
    }
    var r := db.Insert(HandlerTableName(t.value), FieldIds(fields), InsertValues(fields, data), now);
    reply := if r.RunOk? then Saved(r.lastID) else Status(500);
  }

  method Submit(db: Database, config: Config, session: Session, typeKey: string, data: Object, now: string) returns (reply: Reply)
    requires db.Valid()
    modifies db`rows, db`sequence
    ensures db.Valid()
    ensures Handled(db.State(), reply) ==
            Guarded(old(db.State()), session, UploadOrAdmin, SubmitBody(old(db.State()), config, typeKey, data, now))
  {
    var verdict := Gate(db.users, session, UploadOrAdmin);
    if verdict.Deny? {
      return Status(verdict.code);
    }
    reply := SubmitRoute(db, config, typeKey, data, now);
  }

  method Update(db: Database, config: Config, session: Session, typeKey: string, id: int, data: Object) returns (reply: Reply)
    requires db.Valid()
    modifies db`rows
    ensures db.Valid()
    ensures Handled(db.State(), reply) ==
            Guarded(old(db.State()), session, AdminOnly, UpdateBody(old(db.State()), config, typeKey, id, data))
  {
    var verdict := Gate(db.users, session, AdminOnly);
    if verdict.Deny? {
      return Status(verdict.code);
    }
    var t := Lookup(config, typeKey);
    if t.None? {
      return Status(404);
    }
    var fields := FieldsOf(t.value);
    var r := db.Update(HandlerTableName(t.value), FieldIds(fields), UpdateValues(fields, data), id);
    if r.RunErr? {
      reply := Status(500);
    } else if r.changes == 0 {
      reply := Status(404);
    } else {
      reply := Done;
    }
  }

  /** The body of the delete route, shared with the ungated server. */
  method DeleteRoute(db: Database, config: Config, typeKey: string, id: int) returns (reply: Reply)
    requires db.Valid()
    modifies db`rows, db`files
    ensures db.Valid()
    ensures Handled(db.State(), reply) == DeleteBody(old(db.State()), config, typeKey, id)
  {
    var t := Lookup(config, typeKey);
    if t.None? {
      return Status(404);
    }
    var table := HandlerTableName(t.value);
    var fetched := GetById(db.State(), table, id);
    if fetched.FetchErr? {
      return Status(500);
    }
    var pic := PictureOf(fetched);
    if Truthy(pic) {
      if !pic.Str? {
        return Crash;
      }
      db.RemoveFileIfExists(pic.s);
      ValidIgnoresUsers(old(db.State()), db.users, db.files);
    }
    assert db.State() == old(db.State()).(files := db.files);
    var r := db.Delete(table, id);
    if r.RunErr? {
      reply := Status(500);
    } else if r.changes == 0 {
      reply := Status(404);
    } else {
      reply := Done;
    }
  }

  method Delete(db: Database, config: Config, session: Session, typeKey: string, id: int) returns (reply: Reply)
    requires db.Valid()
    modifies db`rows, db`files
    ensures db.Valid()
    ensures Handled(db.State(), reply) ==
            Guarded(old(db.State()), session, AdminOnly, DeleteBody(old(db.State()), config, typeKey, id))
  {
    var verdict := Gate(db.users, session, AdminOnly);
    if verdict.Deny? {
      return Status(verdict.code);
    }
    reply := DeleteRoute(db, config, typeKey, id);
  }

  method AddUser(db: Database, session: Session, body: Object) returns (reply: Reply)
    requires db.Valid()
    modifies db`users
    ensures db.Valid()
    ensures Handled(db.State(), reply) == Guarded(old(db.State()), session, AdminOnly, AddUserBody(old(db.State()), body))
  {
    var verdict := Gate(db.users, session, AdminOnly);
    if verdict.Deny? {
      return Status(verdict.code);
    }
    var raw := Or(Get(body, "email"), Str(""));
    if !raw.Str? {
      return Status(500);
    }
    var email := NormalizeEmail(raw.s);
    if email == "" {
      return Status(400);
    }
    var role := ParseRole(Get(body, "role"));
    if role.None? {
      return Status(400);
    }
    var r := db.InsertUser(email, role.value);
    ValidIgnoresUsers(old(db.State()), db.users, db.files);
    if r.RunErr? {
      reply := if r.unique then Status(409) else Status(500);
    } else {
      reply := UserAdded(email, role.value);
    }
  }

  method SetRole(db: Database, session: Session, param: string, body: Object) returns (reply: Reply)
    requires db.Valid()
    modifies db`users
    ensures db.Valid()
    ensures Handled(db.State(), reply) == Guarded(old(db.State()), session, AdminOnly, SetRoleBody(old(db.State()), param, body))
  {
    var verdict := Gate(db.users, session, AdminOnly);
    if verdict.Deny? {
      return Status(verdict.code);
    }
    var email := NormalizeEmail(param);
    if email == "" {
      return Status(400);
    }
    var role := ParseRole(Get(body, "role"));
    if role.None? {
      return Status(400);
    }
    var r := db.SetUserRole(email, role.value);
    ValidIgnoresUsers(old(db.State()), db.users, db.files);
    reply := if r.changes == 0 then Status(404) else RoleSet(email, role.value);
  }

  method RemoveUser(db: Database, session: Session, param: string) returns (reply: Reply)
    requires db.Valid()
    modifies db`users
    ensures db.Valid()
    ensures Handled(db.State(), reply) == Guarded(old(db.State()), session, AdminOnly, RemoveUserBody(old(db.State()), param))
  {
    var verdict := Gate(db.users, session, AdminOnly);
    if verdict.Deny? {
      return Status(verdict.code);
    }
    var email := NormalizeEmail(param);
    if email == "" {
      return Status(400);
    }
    var r := db.DeleteUser(email);
    ValidIgnoresUsers(old(db.State()), db.users, db.files);
    reply := if r.changes == 0 then Status(404) else Done;
  }

  /** Dispatches a request to its handler. */
  method Serve(db: Database, config: Config, session: Session, now: string, req: Request) returns (reply: Reply)
    requires db.Valid()
    modifies db
    ensures db.Valid()
    ensures Handled(db.State(), reply) == Respond(old(db.State()), config, session, now, req)
  {
    if UserRoute(req) {
      reply := ServeUsers(db, session, req);
    } else {
      reply := ServeData(db, config, session, now, req);
    }
  }

  method ServeData(db: Database, config: Config, session: Session, now: string, req: Request) returns (reply: Reply)
    requires db.Valid() && !UserRoute(req)
    modifies db`rows, db`sequence, db`files
    ensures db.Valid()
    ensures Handled(db.State(), reply) == RespondData(old(db.State()), config, session, now, req)
  {
    match req
    case SubmitReq(k, data) => reply := Submit(db, config, session, k, data, now);
    case ListReq(k, sortBy, order) => reply := ListBody(db.State(), config, k, sortBy, order);
    case GetReq(k, id) => reply := GetEntry(db.State(), config, k, id);
    case UpdateReq(k, id, data) => reply := Update(db, config, session, k, id, data);
    case DeleteReq(k, id) => reply := Delete(db, config, session, k, id);
  }

  method ServeUsers(db: Database, session: Session, req: Request) returns (reply: Reply)
    requires db.Valid() && UserRoute(req)
    modifies db`users
    ensures db.Valid()
    ensures Handled(db.State(), reply) == RespondUsers(old(db.State()), session, req)
  {
    match req
    case MeReq => reply := Me(db.State(), session);
    case AddUserReq(body) => reply := AddUser(db, session, body);
    case SetRoleReq(param, body) => reply := SetRole(db, session, param, body);
    case RemoveUserReq(param) => reply := RemoveUser(db, session, param);
  }
}

module ServerProperties {
  import opened JsValues
  import opened ScoutingConfig
  import opened Schema
  import opened Auth
  import opened Store
  import opened Server
  import Text

  /** A `0` (or any other falsy value) is stored as NULL by submit but kept by
      update, and for a required field it is reported missing. */
  lemma FalsyValues(fields: seq<Field>, data: Object, i: int)
    requires 0 <= i < |fields| && Get(data, fields[i].id) == Num(0.0)
    ensures InsertValues(fields, data)[i] == Null
    ensures UpdateValues(fields, data)[i] == Num(0.0)
    ensures fields[i].required && fields[i].ftype != File ==> fields[i].caption in MissingLabels(fields, data)
  {
  }

  /** The cell a submitted field lands in holds `data[id] || null`, when the
      field is the first to name its column. */
  lemma SubmittedCell(fields: seq<Field>, data: Object, now: string, id: nat, i: int)
    requires 0 <= i < |fields| && Text.ToLower(fields[i].id) != "id"
    requires forall j :: 0 <= j < i ==> Text.ToLower(fields[j].id) != Text.ToLower(fields[i].id)
    ensures CellOf(NewRow(id, FieldIds(fields), InsertValues(fields, data), now), fields[i].id) == Or(Get(data, fields[i].id), Null)
  {
    var names := FieldIds(fields);
    assert forall j :: 0 <= j < i ==> Text.ToLower(names[j]) != Text.ToLower(names[i]);
    InsertCellsAt(names, InsertValues(fields, data), i);
  }

  /** After an update, a matching row's cell for a field holds the update
      value of the last field naming that column. */
  lemma UpdatedCell(rows: seq<Row>, id: int, fields: seq<Field>, data: Object, k: int, i: int)
    requires 0 <= k < |rows| && rows[k].id == id
    requires 0 <= i < |fields| && Text.ToLower(fields[i].id) != "id"
    requires forall j :: i < j < |fields| ==> Text.ToLower(fields[j].id) != Text.ToLower(fields[i].id)
    ensures CellOf(UpdateId(rows, id, UpdateCells(FieldIds(fields), UpdateValues(fields, data)))[k], fields[i].id) ==
            UpdateValues(fields, data)[i]
  {
    var names := FieldIds(fields);
    assert forall j :: i < j < |fields| ==> Text.ToLower(names[j]) != Text.ToLower(names[i]);
    UpdateCellsAt(names, UpdateValues(fields, data), i);
  }

  /** A row just saved by submit is what the get route returns for the id it reported. */
  lemma {:induction false} SubmitThenGet(s: DbState, config: Config, typeKey: string, data: Object, now: string)
    requires ValidState(s)
    requires SubmitBody(s, config, typeKey, data, now).reply.Saved?
    ensures var h := SubmitBody(s, config, typeKey, data, now);
            var t := Lookup(config, typeKey).value;
            GetEntry(h.state, config, typeKey, h.reply.id) ==
            Found(RowObject(s.schema[HandlerTableName(t)], NewRow(h.reply.id, FieldIds(FieldsOf(t)), InsertValues(FieldsOf(t), data), now)))
  {
    var h := SubmitBody(s, config, typeKey, data, now);
    var t := Lookup(config, typeKey).value;
    var table := HandlerTableName(t);
    var old_ := RowsIn(s, table);
    var row := NewRow(h.reply.id, FieldIds(FieldsOf(t)), InsertValues(FieldsOf(t), data), now);
    assert h.reply.id == SeqOf(s, table) + 1 && row.id == h.reply.id;
    assert forall i :: 0 <= i < |old_| ==> old_[i].id < row.id by {
      assert IdsAtMost(old_, SeqOf(s, table));
    }
    assert RowsIn(h.state, table) == old_ + [row];
    GetNewest(h.state, config, typeKey, old_, row);
  }

  /** The get route reads back the last row of a table whose id no earlier row has. */
  lemma GetNewest(s: DbState, config: Config, typeKey: string, before: seq<Row>, row: Row)
    requires Lookup(config, typeKey).Some?
    requires var table := HandlerTableName(Lookup(config, typeKey).value);
             table in s.schema && RowsIn(s, table) == before + [row]
    requires forall i :: 0 <= i < |before| ==> before[i].id < row.id
    ensures GetEntry(s, config, typeKey, row.id) ==
            Found(RowObject(s.schema[HandlerTableName(Lookup(config, typeKey).value)], row))
  {
    var rows := before + [row];
    assert rows[|before|] == row;
    assert forall i :: 0 <= i < |before| ==> rows[i].id != row.id by {
      forall i | 0 <= i < |before| ensures rows[i].id != row.id {
        assert rows[i] == before[i];
      }
    }
    assert FindRow(rows, row.id) == Some(|before|);
  }

  /** A second delete of the same entry finds nothing and changes nothing more. */
  lemma {:induction false} DeleteTwice(s: DbState, config: Config, typeKey: string, id: int)
    requires ValidState(s)
    requires DeleteBody(s, config, typeKey, id).reply == Done
    ensures var h := DeleteBody(s, config, typeKey, id);
            DeleteBody(h.state, config, typeKey, id) == Handled(h.state, Status(404))
  {
    var h := DeleteBody(s, config, typeKey, id);
    var table := HandlerTableName(Lookup(config, typeKey).value);
    var left := RemoveId(RowsIn(s, table), id);
    assert table in h.state.schema && table in h.state.rows && h.state.rows[table] == left;
    assert forall i :: 0 <= i < |left| ==> left[i].id != id by {
      forall i | 0 <= i < |left| ensures left[i].id != id {
        assert left[i] in left;
      }
    }
    DeleteAbsent(h.state, config, typeKey, id);
  }

  /** Deleting an id no row of the table has is a 404 that changes no stored
      row, user or file; a table that already holds rows is left exactly as it was. */
  lemma DeleteAbsent(s: DbState, config: Config, typeKey: string, id: int)
    requires Lookup(config, typeKey).Some?
    requires var table := HandlerTableName(Lookup(config, typeKey).value);
             table in s.schema && forall i :: 0 <= i < |RowsIn(s, table)| ==> RowsIn(s, table)[i].id != id
    ensures var h := DeleteBody(s, config, typeKey, id);
            h.reply == Status(404) &&
            h.state.schema == s.schema && h.state.sequence == s.sequence &&
            h.state.users == s.users && h.state.files == s.files &&
            forall table :: RowsIn(h.state, table) == RowsIn(s, table)
    ensures HandlerTableName(Lookup(config, typeKey).value) in s.rows ==>
              DeleteBody(s, config, typeKey, id) == Handled(s, Status(404))
  {
    var table := HandlerTableName(Lookup(config, typeKey).value);
    RemoveAbsent(RowsIn(s, table), id);
    var fetched := GetById(s, table, id);
    assert fetched == NoRow;
    var pic := PictureOf(fetched);
    assert pic == Undefined && !Truthy(pic);
    var ran := DeleteRun(s, table, id);
    assert ran.result == RunOk(0, 0);
    if table in s.rows {
      assert ran == Ran(s, RunOk(0, 0)) by {
        assert s.rows[table := RemoveId(RowsIn(s, table), id)] == s.rows;
      }
    }
  }

  /** A failed submit leaves the database as it was, and an entry missing a
      required value is never stored. */
  lemma SubmitRejectsMissing(s: DbState, config: Config, typeKey: string, data: Object, now: string, i: int)
    requires Lookup(config, typeKey).Some?
    requires var fs := FieldsOf(Lookup(config, typeKey).value);
             0 <= i < |fs| && ServerMissing(data, fs[i])
    ensures SubmitBody(s, config, typeKey, data, now).reply.Invalid?
    ensures SubmitBody(s, config, typeKey, data, now).state == s
  {
  }

  /** A user added through `POST /api/users` is found by the lookup the
      middleware does for any address that normalises to the stored one. */
  lemma {:induction false} AddedUserIsFound(s: DbState, body: Object, e: string)
    requires AddUserBody(s, body).reply.UserAdded?
    requires NormalizeEmail(e) == AddUserBody(s, body).reply.email
    ensures var h := AddUserBody(s, body);
            Me(h.state, SignedIn(Some(e))) == MeInfo(Some(h.reply.role), CapabilitiesOf(Some(h.reply.role)))
  {
    var h := AddUserBody(s, body);
    FoundAfterWrite(s.users, h.reply.email, h.reply.role, e);
  }

  /** Storing a role under a normalised address makes every address that
      normalises to it look up that role. */
  lemma {:induction false} FoundAfterWrite(users: Users, email: string, role: Role, e: string)
    requires email != "" && NormalizeEmail(e) == email
    ensures RoleOf(users[email := role], Some(e)) == Some(role)
    ensures RoleOf(users - {email}, Some(e)) == None
  {
    KeysAgree(e);
    EmptyNormalizesEmpty();
  }

  lemma EmptyNormalizesEmpty()
    ensures NormalizeEmail("") == ""
  {
  }

  /** After `DELETE /api/users/:email` the address is refused by every gate. */
  lemma {:induction false} RemovedUserIsRefused(s: DbState, param: string, e: string, need: Need)
    requires RemoveUserBody(s, param).reply == Done
    requires NormalizeEmail(e) == NormalizeEmail(param)
    ensures Gate(RemoveUserBody(s, param).state.users, SignedIn(Some(e)), need) == Deny(403)
  {
    FoundAfterWrite(s.users, NormalizeEmail(param), Admin, e);
    EmptyNormalizesEmpty();
  }

  /** What `/api/me` reports for a signed-in user matches the routes the
      middleware lets that user reach. */
  lemma MeAgreesWithGates(s: DbState, email: Option<string>)
    ensures Me(s, SignedIn(email)).caps.canUpload <==> Gate(s.users, SignedIn(email), UploadOrAdmin) == Pass
    ensures Me(s, SignedIn(email)).caps.canEdit <==> Gate(s.users, SignedIn(email), AdminOnly) == Pass
  {
    GateAgreesWithCapabilities(s.users, SignedIn(email));
  }

  /** An address listed in the administrator variable that had no row before
      start-up passes the admin gate afterwards; one that had a row keeps its role. */
  lemma {:induction false} InitialAdmins(users: Users, allowed: Option<string>, initial: Option<string>, e: string)
    requires e in ParseAdminEmails(allowed, initial)
    ensures var seeded := InsertOrIgnore(users, ParseAdminEmails(allowed, initial), Admin);
            (e !in users ==> Gate(seeded, SignedIn(Some(e)), AdminOnly) == Pass) &&
            (e in users ==> RoleOf(seeded, Some(e)) == Some(users[e]))
  {
    var emails := ParseAdminEmails(allowed, initial);
    var seeded := InsertOrIgnore(users, emails, Admin);
    AdminEmailNormalized(allowed, initial, e);
    assert e in (set x | x in emails);
    assert e in seeded.Keys;
    assert RoleOf(seeded, Some(e)) == Some(seeded[e]);
    if e !in users {
      assert seeded[e] == Admin;
      GateByRole(seeded, SignedIn(Some(e)), AdminOnly);
    }
  }
}
