/**
 Roles and the permission gate of the authenticated server: the two roles a
 `users` row may hold, the normalisation of an email address before it is
 looked up or stored, the role lookup, the Express middleware that answers 401
 or 403, the capability flags `/api/me` reports, and the list of initial
 administrators read from the environment.
 */
module Auth {
  import opened JsValues
  import Text

  /** The `role` column is constrained to `'admin'` or `'upload'`. */
  datatype Role = Admin | Upload

  function RoleName(role: Role): string {
    match role
    case Admin => "admin"
    case Upload => "upload"
  }

  /** The check `role !== 'admin' && role !== 'upload'` on a request value:
      only the two exact strings name a role. */
  function ParseRole(v: Value): (r: Option<Role>)
    ensures r == Some(Admin) <==> v == Str("admin")
    ensures r == Some(Upload) <==> v == Str("upload")
    ensures r.Some? ==> v == Str(RoleName(r.value))
  {
    if v == Str("admin") then Some(Admin)
    else if v == Str("upload") then Some(Upload)
    else None
  }

  /** Every role survives being written out and read back. */
  lemma ParseRoleName(role: Role)
    ensures ParseRole(Str(RoleName(role))) == Some(role)
  {
  }

  /** The key `getUserRole` looks up: `email.toLowerCase().trim()`. */
  function LookupKey(email: string): string {
    Text.Trim(Text.ToLower(email))
  }

  /** The key the user routes store and match: `email.trim().toLowerCase()`. */
  function NormalizeEmail(email: string): string {
    Text.ToLower(Text.Trim(email))
  }

  /** Both orders of trimming and lower-casing give the same key, and a key
      normalises to itself, so a lookup finds the row the user routes wrote. */
  lemma KeysAgree(email: string)
    ensures LookupKey(email) == NormalizeEmail(email)
    ensures NormalizeEmail(NormalizeEmail(email)) == NormalizeEmail(email)
    ensures LookupKey(NormalizeEmail(email)) == NormalizeEmail(email)
  {
    Text.TrimLowerCommute(email);
    Text.NormalizedIsFixed(email);
  }

  /** The `users` table: normalised email to role (emails are unique). */
  type Users = map<string, Role>

  /** The identity the session carries: none, or a signed-in Google profile
      whose `email` may be missing. */
  datatype Session = Anonymous | SignedIn(email: Option<string>)

  /** `req.user && req.user.email` is truthy. */
  predicate HasEmail(s: Session) {
    s.SignedIn? && s.email.Some? && s.email.value != ""
  }

  /** `getUserRole`: a falsy email has no role; otherwise the role of the row
      whose email is the normalised address, and none when there is no row. */
  function RoleOf(users: Users, email: Option<string>): (r: Option<Role>)
    ensures r.Some? <==> email.Some? && email.value != "" && LookupKey(email.value) in users
    ensures r.Some? ==> r.value == users[LookupKey(email.value)]
  {
    match email
    case None => None
    case Some(e) =>
      if e == "" then None
      else if LookupKey(e) in users then Some(users[LookupKey(e)])
      else None
  }

  /** The flags of `/api/me`: `canUpload` for admin or upload, `canEdit` and
      `canManageUsers` for admin only. */
  datatype Capabilities = Capabilities(canUpload: bool, canEdit: bool, canManageUsers: bool)

  function CapabilitiesOf(role: Option<Role>): (c: Capabilities)
    ensures c.canEdit ==> c.canUpload
    ensures c.canManageUsers == c.canEdit
    ensures c.canUpload <==> role.Some?
    ensures c.canEdit <==> role == Some(Admin)
  {
    assert role.Some? ==> role.value.Admin? || role.value.Upload?;
    Capabilities(role == Some(Admin) || role == Some(Upload), role == Some(Admin), role == Some(Admin))
  }

  /** Which middleware guards a route. */
  datatype Need = UploadOrAdmin | AdminOnly

  /** Whether the request reaches the route body, or the status it is refused with. */
  datatype Verdict = Pass | Deny(code: int)

  /** `requireAuth` followed by `requireUploadOrAdmin` or `requireAdmin`. */
  function Gate(users: Users, session: Session, need: Need): (v: Verdict)
    ensures v == Deny(401) <==> !HasEmail(session)
    ensures v.Deny? ==> v.code == 401 || v.code == 403
    ensures need == AdminOnly ==> (v == Pass <==> HasEmail(session) && RoleOf(users, session.email) == Some(Admin))
    ensures need == UploadOrAdmin ==> (v == Pass <==> HasEmail(session) && RoleOf(users, session.email).Some?)
  {
    if session.Anonymous? then Deny(401)
    else if session.email.None? || session.email.value == "" then Deny(401)
    else
      var role := RoleOf(users, session.email);
      match need
      case AdminOnly => if role != Some(Admin) then Deny(403) else Pass
      case UploadOrAdmin => if role != Some(Admin) && role != Some(Upload) then Deny(403) else Pass
  }

  /** What `/api/me` reports agrees with what the middleware lets through: a
      signed-in user can upload exactly when the upload gate passes, and can
      edit or manage users exactly when the admin gate passes. */
  lemma GateAgreesWithCapabilities(users: Users, session: Session)
    requires session.SignedIn?
    ensures Gate(users, session, UploadOrAdmin) == Pass <==> CapabilitiesOf(RoleOf(users, session.email)).canUpload
    ensures Gate(users, session, AdminOnly) == Pass <==> CapabilitiesOf(RoleOf(users, session.email)).canEdit
  {
  }

  /** An administrator passes every gate; a signed-in user without a row is
      refused with 403 by every gate. */
  lemma GateByRole(users: Users, session: Session, need: Need)
    requires HasEmail(session)
    ensures RoleOf(users, session.email) == Some(Admin) ==> Gate(users, session, need) == Pass
    ensures RoleOf(users, session.email).None? ==> Gate(users, session, need) == Deny(403)
    ensures RoleOf(users, session.email) == Some(Upload) ==> (Gate(users, session, need) == Pass <==> need == UploadOrAdmin)
  {
  }

  /** `pieces.map(e => e.trim().toLowerCase())` */
  function NormalizeAll(pieces: seq<string>): (r: seq<string>)
    ensures |r| == |pieces|
    ensures forall i :: 0 <= i < |pieces| ==> r[i] == NormalizeEmail(pieces[i])
  {
    seq(|pieces|, i requires 0 <= i < |pieces| => NormalizeEmail(pieces[i]))
  }

  /** `.filter(Boolean)` on strings: drops the empty ones, keeps the order. */
  function NonEmpty(xs: seq<string>): (r: seq<string>)
    ensures |r| <= |xs|
    ensures forall e :: e in r <==> e in xs && e != ""
  {
    if |xs| == 0 then []
    else if xs[0] == "" then NonEmpty(xs[1..])
    else [xs[0]] + NonEmpty(xs[1..])
  }

  /** `(ALLOWED_EDIT_EMAILS || INITIAL_ADMIN_EMAILS || '')`, split on commas,
      each piece trimmed and lower-cased, empty pieces dropped. */
  function AdminSource(allowed: Option<string>, initial: Option<string>): string {
    if allowed.Some? && allowed.value != "" then allowed.value
    else if initial.Some? && initial.value != "" then initial.value
    else ""
  }

  function ParseAdminEmails(allowed: Option<string>, initial: Option<string>): (r: seq<string>)
    ensures forall e :: e in r <==> e != "" && exists p :: p in Text.Split(AdminSource(allowed, initial), ',') && e == NormalizeEmail(p)
  {
    var pieces := Text.Split(AdminSource(allowed, initial), ',');
    var normalized := NormalizeAll(pieces);
    assert forall p :: p in pieces ==> NormalizeEmail(p) in normalized by {
      forall p | p in pieces ensures NormalizeEmail(p) in normalized {
        var i :| 0 <= i < |pieces| && pieces[i] == p;
        assert normalized[i] == NormalizeEmail(p);
      }
    }
    NonEmpty(normalized)
  }

  /** Every initial administrator is a non-empty, already normalised address
      without a comma, so storing it and looking it up use the same key. */
  lemma AdminEmailNormalized(allowed: Option<string>, initial: Option<string>, e: string)
    requires e in ParseAdminEmails(allowed, initial)
    ensures e != "" && NormalizeEmail(e) == e && LookupKey(e) == e && ',' !in e
  {
    var pieces := Text.Split(AdminSource(allowed, initial), ',');
    var p :| p in pieces && e == NormalizeEmail(p);
    KeysAgree(p);
    KeysAgree(e);
    NoCommaSurvives(p);
  }

  lemma NoCommaSurvives(p: string)
    requires ',' !in p
    ensures ',' !in NormalizeEmail(p)
  {
    var t := Text.Trim(p);
    Text.TrimKeepsOut(p, ',');
    var low := Text.ToLower(t);
    forall i | 0 <= i < |low| ensures low[i] != ',' {
      assert t[i] != ',' && low[i] == Text.LowerChar(t[i]);
    }
  }

  /** `INSERT OR IGNORE INTO users (email, role)` for each address in turn. */
  function InsertOrIgnore(users: Users, emails: seq<string>, role: Role): (r: Users)
    ensures r.Keys == users.Keys + (set e | e in emails)
    ensures forall e :: e in users ==> r[e] == users[e]
    ensures forall e :: e in r && e !in users ==> r[e] == role
    decreases |emails|
  {
    if |emails| == 0 then users
    else
      var next := if emails[0] in users then users else users[emails[0] := role];
      InsertOrIgnore(next, emails[1..], role)
  }
}
