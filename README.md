# FRC scouting server and client, modelled in Dafny

The system is a small scouting application for FIRST Robotics teams. A JSON
configuration (`scouting-config.json`) lists scouting types (pre-match,
post-match, ...). Each type has a table name and an ordered list of field
descriptors with an id, a label, a type (`text`, `number`, `select`,
`textarea`, `checkbox`, `file`) and a `required` flag. The servers keep one
SQLite table per type, whose columns follow the field list. Scouts submit
entries from a browser form. Everyone can list and view entries;
administrators can edit and delete them and manage who may upload.

Two servers exist:

- `server.js` signs users in with Google and keeps a `users` table. Each row
  gives an address the role `admin` or `upload`. At start-up it synchronises
  the tables additively. Each table is created with `id` and `timestamp`, and
  every configured column the table lacks is added with ALTER TABLE.
- `server-upnp.js` has no sign-in. It creates each table once with every
  column and serves submit, list, get and delete to anyone. It talks to the
  database through `lib/sqlite-wrapper.js`, a callback interface over an
  in-memory SQL engine.

Two browser scripts exist: `public/app.js`, the current client, and
`src/public/app.js`, an older copy.

The model works at the level of the SQL statements the servers issue.

- The database is a value `Store.DbState`: the schema, the rows of each table
  in rowid order, the AUTOINCREMENT counters, the `users` table and the set
  of uploaded files.
- Each statement is a function from one state to the next (`InsertRun`,
  `UpdateRun`, `DeleteRun`, ...). The class `Store.Database` holds the same
  state in fields, and its methods are proved to change it exactly as those
  functions say.
- Each route body of `server.js` is a function from the state before the
  request to the state after it and the reply (`Server.SubmitBody`,
  `Server.DeleteBody`, ...). The handler methods run the statements on a
  `Database`, and each is proved equal to its function. The middleware is
  `Auth.Gate`, and `Server.Respond` is the route table.
- The ungated server reuses the same route bodies without the gate. It is
  proved to answer everyone exactly as the authenticated server answers an
  administrator (`UpnpServer.SameAsForAdmin`).
- The start-up of each server is a method with loops, proved against a
  specification function: `Schema.SyncAll` for `server.js`, `Schema.CreateAll`
  for `server-upnp.js`. Additivity, completeness, idempotence and base-column
  order are lemmas about those functions.
- The page state of each client is a class (`WebClient.Page`,
  `LegacyClient.LegacyPage`) whose methods reassign its fields. The form
  collection is a loop proved against the function `WebClient.Collect`.
- `EndToEnd` connects the two sides. It covers what the client sends for an
  unchecked checkbox and what the servers store and show for it, and what
  `/api/me` makes the client offer. It also covers the address the user form
  sends and the sort a click asks for.

JavaScript values are the datatype `JsValues.Value`, with the truthiness
that `||`, `!` and `!= null` use. A missing object key reads as `undefined`.
Inputs the programs get from outside are parameters:

- the session's identity;
- the clock reading an INSERT stamps into `timestamp`;
- the response of `fetch('/api/me')`;
- the DOM inputs, as a map from element id to value and checked state;
- what the SQL engine returned, for the wrapper.

Some behaviour of the code a reader may not expect:

- `server.js` does not wait for the schema synchroniser before it listens, and
  nothing handles the promise `initializeDatabase()` returns. A failed ALTER
  TABLE rejects it, which on current Node versions ends the process.
- The delete route removes the file named by the column `robotPicture`, and
  no other file-type field.
- An exception inside a database callback is not turned into a reply; it ends
  the process (`Crash`). The delete route's `path.join` on a truthy
  `robotPicture` that is not a string is one. An exception in a route body
  itself becomes Express's 500: the list route's `typeConfig.fields.map` on a
  type without a field list is one.
- A successful submit answers 200 with the new id (only add-user answers 201).

`WebClient.CollectNeverNull` shows that `collectFormData(true)` never returns
null. `valid` only turns false for a field that has an input, and such a field
always gets a key. So the submit handler's "Fill in required fields" message
cannot appear, and only its missing-field list rejects a form.

## Model

| member | source | states |
|---|---|---|
| JsValues.Zip | lib/sqlite-wrapper.js:13 | the filled object has exactly one key per column name |
| JsValues.ZipAt | lib/sqlite-wrapper.js:13 | a column name not repeated later holds the value at its own position, undefined past the row's end |
| JsValues.ZipConsistent | lib/sqlite-wrapper.js:78 | a name all of whose positions hold one value holds that value |
| Text.TrimStart | server.js:23 | the leading white space is removed and nothing else; the result is a suffix of the input |
| Text.TrimEnd | server.js:23 | the trailing white space is removed and nothing else; the result is a prefix of the input |
| Text.Trim | server.js:23 | `trim()` leaves no white space at either end |
| Text.ToLower | server.js:23 | `toLowerCase()` keeps the length |
| Text.Split | server.js:22 | `split(',')` gives at least one piece and no piece holds a comma |
| Text.TrimKeepsOut | server.js:23 | trimming adds no character that was not there |
| Text.TrimIdempotent | server.js:505 | trimming twice equals trimming once |
| Text.LowerIdempotent | server.js:178 | lower-casing twice equals lower-casing once, and the result is lower-case |
| Text.SplitJoin | server.js:22 | the comma-split pieces join back to the original string |
| Text.TrimLowerCommute | server.js:178 | lower-casing then trimming equals trimming then lower-casing |
| Text.NormalizedIsFixed | server.js:505 | a trimmed, lower-cased address is unchanged by doing it again |
| ScoutingConfig.Lookup | server.js:332 | a found type is in the configuration under that key; nothing is found exactly when no type has the key |
| ScoutingConfig.FieldIds | server.js:355 | one id per field, in order |
| ScoutingConfig.TableNamesAgree | server.js:340 | the handlers' `typeConfig.tableName` names the table the synchroniser made (`tableName` or `${typeKey}_data`, line 129) exactly when `tableName` is a non-empty string |
| ScoutingConfig.LabelsWhere | server.js:343-345 | filter then map to labels: a label is listed iff a field passing the filter has it, never more labels than fields, empty iff no field passes |
| ScoutingConfig.LabelsAppend | server.js:343-345 | the labels of two lists of fields one after the other are the labels of the first followed by those of the second |
| ScoutingConfig.LabelsOne | server.js:343-345 | one field gives its own label once when it passes the filter and nothing otherwise |
| ScoutingConfig.LabelsInOrder | server.js:343-345 | each field's label, when it passes, sits exactly between the labels of the fields before it and those after it, so the labels keep configuration order, one per passing field |
| Auth.ParseRole | server.js:509-511 | only the exact strings `admin` and `upload` name a role |
| Auth.ParseRoleName | server.js:107 | each role written out reads back as itself |
| Auth.KeysAgree | server.js:178 | the lookup key (lower-case, then trim) equals the stored key (trim, then lower-case, line 505) and is a fixpoint |
| Auth.RoleOf | server.js:176-182 | no role for a falsy email or an address without a row; otherwise the row's role under the normalised address |
| Auth.CapabilitiesOf | server.js:245-247 | `canUpload` iff a role exists; `canEdit` iff admin; `canManageUsers` equals `canEdit` |
| Auth.Gate | server.js:185-218 | 401 exactly when there is no signed-in user with an email; the admin gate passes iff the role is admin, the upload gate iff there is a role; 403 otherwise |
| Auth.GateAgreesWithCapabilities | server.js:239-256 | the flags `/api/me` reports match the middleware's verdicts for a signed-in user |
| Auth.GateByRole | server.js:193-218 | an admin passes both gates, an upload user only the upload gate, a user without a row gets 403 from both |
| Auth.NonEmpty | server.js:24 | `filter(Boolean)` keeps exactly the non-empty strings |
| Auth.ParseAdminEmails | server.js:21-24 | an address is an initial admin iff it is the non-empty normalisation of a comma-separated piece of the first non-empty variable |
| Auth.AdminEmailNormalized | server.js:21-24 | every initial admin is non-empty, normalised, its own lookup key, and free of commas |
| Auth.NoCommaSurvives | server.js:22-23 | trimming and lower-casing a piece without a comma adds none |
| Auth.InsertOrIgnore | server.js:112-113 | INSERT OR IGNORE adds each new address with the role and keeps every existing row's role |
| Schema.ColumnTypeFor | server.js:151-153 | REAL iff `number`, INTEGER iff `checkbox`, TEXT for every other type |
| Schema.ColumnTypesAgree | server-upnp.js:64-67 | the ungated server maps every field type to the same column type |
| Schema.SameNameClashes | server.js:155-158 | a name already among the columns makes ADD COLUMN fail |
| Schema.AddMissingAppends | server.js:148-171 | the ALTER loop only appends, and each column it adds belongs to a field missing from the snapshot |
| Schema.AddMissingOutcome | server.js:148-171 | on success every field is in the snapshot or a column; a failure is a missing field whose name clashes |
| Schema.CreateIfMissing | server.js:137-142 | CREATE TABLE IF NOT EXISTS adds exactly that table and no other |
| Schema.SyncTypeExtends | server.js:126-171 | one type's sync only extends its own table, keeping its columns as a prefix |
| Schema.SyncAllExtends | server.js:120-173 | sync never drops a table or removes or reorders a column, and leaves unconfigured tables as they were |
| Schema.SyncTypeHasField | server.js:136-171 | a successful sync of a type gives its table a column for each of its fields |
| Schema.SyncAllHasField | server.js:126-172 | a successful start-up gives each field of each type a column in that type's table |
| Schema.SyncAllComplete | server.js:120-173 | after a successful start-up every configured field id is a column of its table |
| Schema.AddMissingNothingMissing | server.js:149 | when every field is in the snapshot the loop adds nothing and succeeds |
| Schema.SyncAllFixpoint | server.js:120-173 | a schema that already has every configured table and column is left unchanged |
| Schema.SyncAllIdempotent | server.js:120-173 | a second start-up with the same configuration changes nothing |
| Schema.SyncAllCreates | server.js:137-142 | every configured table exists after a successful start-up |
| Schema.SyncAllKeepsBaseFirst | server.js:131-142 | every table keeps `id` and `timestamp` as its first two columns |
| Schema.CreateColumns | server-upnp.js:58-69 | `id`, `timestamp`, then one column per field in order, typed by the ungated mapping |
| Schema.CreateTable | server-upnp.js:71-75 | an existing table is left as it is; a new one is created unless two columns clash, and a failure changes nothing |
| Schema.CreateAllShape | server-upnp.js:51-90 | existing tables gain no column; each new table has exactly the columns of a type naming it |
| Schema.CreateAllMakesTables | server-upnp.js:77-89 | when every statement succeeds every configured table exists |
| Schema.CreateAllExisting | server-upnp.js:72 | when every table exists all statements succeed and change nothing |
| Schema.CreateAllIdempotent | server-upnp.js:51-90 | a second create-all start-up changes nothing |
| Schema.AddMissingAppendsAll | server.js:148-171 | on a table lacking every field, without clashes, the loop appends every field's column in order and succeeds |
| Schema.FieldsAvoidBase | server-upnp.js:58-69 | in a clash-free configuration no field is named `id` or `timestamp` |
| Schema.CreateColumnsAsSync | server-upnp.js:63-69 | the create-all column list is the base columns plus the additive sync's column for each field |
| Schema.CreateColumnsSnoc | server-upnp.js:63-69 | each `push` appends the next field's column |
| Schema.FreshAddMissing | server.js:136-171 | on a fresh table the ALTER loop yields the create-all column list |
| Schema.FreshSync | server.js:136-171 | on a table the schema lacks, the ALTER loop yields the create-all column list |
| Schema.FreshSyncSucceeds | server.js:136-171 | syncing a clash-free type onto a new table succeeds |
| Schema.SyncMatchesCreate | server.js:126-171 | on a new clash-free table the two start-ups build the same table |
| Store.RowObject | server.js:415 | `SELECT *` gives one key per column of the table |
| Store.RowObjectAt | server.js:423 | each key of the row object holds that column's cell (NULL for a column added after the row) |
| Store.RowObjectGet | server.js:472 | `row.robotPicture` is the cell when the table has that column and undefined otherwise |
| Store.FindRow | server.js:415 | the first row whose rowid is `id`, or none exactly when no row has it |
| Store.CountId | server.js:447 | the changed-row count is zero exactly when no row has the id |
| Store.CountAtMostOne | server.js:484 | with unique rowids a statement keyed on `id` changes at most one row, exactly when the row exists |
| Store.RemoveId | server.js:479 | DELETE keeps exactly the rows with another id, in rowid order |
| Store.RemoveIdCount | server.js:484 | DELETE removes as many rows as it reports changed |
| Store.RemoveAbsent | server.js:479 | deleting an id no row has leaves the rows unchanged |
| Store.UpdateId | server.js:442 | UPDATE keeps the number and rowids of the rows |
| Store.UpdateKeepsIds | server.js:442 | UPDATE keeps rowids in increasing order |
| Store.InsertCells | server.js:359-362 | every named column gets a cell |
| Store.InsertCellsAt | server.js:359-362 | a column receives the value of its first occurrence in the INSERT list |
| Store.UpdateCells | server.js:439 | every column in the SET clause gets a cell |
| Store.UpdateCellsAt | server.js:439 | a column receives the value of its last occurrence in the SET clause |
| Store.AppendKeepsOrder | server.js:132 | appending a row with the next AUTOINCREMENT id keeps rowids increasing and bounded by the counter |
| Store.InsertRun | server.js:359-372 | on a known table with writable columns the row gets rowid counter + 1, reported as `lastID`; otherwise an error that changes nothing |
| Store.UpdateRun | server.js:442-447 | `changes` counts the matching rows, which all take the written cells; an unknown table or column is an error that changes nothing |
| Store.DeleteRun | server.js:479-484 | `changes` counts the matching rows, which are removed; an unknown table is an error |
| Store.GetById | server.js:415-422 | an error iff the table is unknown, no row iff no row has the id, otherwise the object of a row with that id |
| Store.SelectAll | server.js:395-400 | an error iff the table or sort column is unknown, otherwise one object per row |
| Store.InsertUserRun | server.js:512-519 | a UNIQUE error iff the address has a row, otherwise the row is added |
| Store.SetUserRoleRun | server.js:530-532 | one change and the new role iff the address has a row |
| Store.DeleteUserRun | server.js:540-542 | one change iff the address had a row, which is gone afterwards |
| Store.Database.CreateTable | server.js:138-141 | the table state is `Schema.CreateTable` of the old one |
| Store.Database.TableInfo | server.js:92-99 | the live column names, none for a missing table |
| Store.Database.AddColumn | server.js:155-170 | ADD COLUMN succeeds iff the name clashes with no column, and then appends it |
| Store.Database.Insert | server.js:364 | new state and result are `InsertRun` of the old state |
| Store.Database.Update | server.js:442 | new state and result are `UpdateRun` of the old state |
| Store.Database.Delete | server.js:479 | new state and result are `DeleteRun` of the old state |
| Store.Database.InsertUser | server.js:512 | new state and result are `InsertUserRun` of the old state |
| Store.Database.InsertUserOrIgnore | server.js:112-113 | an address with a row keeps it, a new one gets the role |
| Store.Database.SetUserRole | server.js:530 | new state and result are `SetUserRoleRun` of the old state |
| Store.Database.DeleteUser | server.js:540 | new state and result are `DeleteUserRun` of the old state |
| Store.Database.RemoveFileIfExists | server.js:473-476 | the file is gone afterwards whether or not it existed |
| Server.InitializeDatabase | server.js:120-173 | users are the INSERT OR IGNORE of the initial admins; schema and outcome are `SyncAll` of the old schema |
| Server.SeedAdmins | server.js:112-114 | the users table is the INSERT OR IGNORE of the admins in order |
| Server.SyncTypeOn | server.js:126-171 | schema and outcome are `SyncType` of the old schema |
| Server.AddColumns | server.js:148-171 | only the named table changes, as the ALTER loop `AddMissing` says |
| Server.MissingLabels | server.js:343-345 | the labels of required non-file fields with a falsy value; a label is listed iff such a field has it; empty iff no field is missing |
| Server.MissingInOrder | server.js:343-345 | the missing labels come in configuration order, one per missing field: a field contributes its label at its own place exactly when it is missing |
| Server.InsertValues | server.js:357 | one value per field: null exactly when the submitted value is falsy, otherwise that value |
| Server.UpdateValues | server.js:440 | one value per field, never undefined: null exactly when the submitted value is null or undefined, otherwise that value |
| Server.SanitizeSort | server.js:388-393 | ascending iff `sortOrder` is exactly `asc`; the column is `sortBy` when accepted, else `timestamp`; no sort (a 500) when the type has no field list |
| Server.SubmitBody | server.js:330-376 | 404 for an unknown type; 400 with the missing labels and no change; otherwise a new row with the configured fields' values and the reported id, or 500 and no change when the INSERT fails |
| Server.ListBody | server.js:379-402 | 404 for an unknown type; otherwise a listing iff the type has a field list, its table exists and the sanitised sort column is a column of it (else 500); the listing carries the sanitised sort and, row for row, the object of each stored row |
| Server.GetEntry | server.js:405-425 | 404 for an unknown type; for a known one 500 iff its table is unknown, 404 iff no row has the id, otherwise the object of a row with that id |
| Server.UpdateBody | server.js:428-452 | for a known type: 500 iff the table is unknown or a field is not a writable column, then changing nothing; 404 iff no row has the id, with every table's rows as they were; otherwise every configured field of the matching row is overwritten, an omitted one with null |
| Server.DeleteBody | server.js:455-490 | for a known type: 500 iff the table is unknown; a crash iff the row's `robotPicture` is truthy and not a string; otherwise the row is removed and a string picture unlinked when a row has the id, and 404 with rows and files unchanged when none has |
| Server.Me | server.js:239-256 | 401 iff not signed in; a signed-in user always gets the role and the flags derived from it |
| Server.AddUserBody | server.js:503-521 | 500 iff the email is truthy and not a string; 400 iff the address is blank or the role unknown; 409 with no change iff the address has a row; otherwise, exactly then, the row is added with the normalised address |
| Server.SetRoleBody | server.js:523-535 | 400 iff the address is blank or the role unknown; 404 iff no row; the role is replaced exactly when the row exists |
| Server.RemoveUserBody | server.js:537-545 | 400 iff the address is blank, 404 iff no row, otherwise the row is removed |
| Server.Guarded | server.js:185-218 | a refused request gets 401 or 403 and changes nothing; a passed one gets the route body |
| Server.Respond | server.js:330-545 | every route keeps the database invariant (rows only in tables, base columns first, rowids increasing and below the counter) |
| Server.RespondData | server.js:330-490 | the data routes keep the database invariant and never change the users table |
| Server.RespondUsers | server.js:239-545 | `/api/me` and the user routes keep the invariant and change only the users table |
| Server.ReadsChangeNothing | server.js:379-425 | list, get and `/api/me` change nothing |
| Server.RespondRefuses | server.js:185-218 | a write without a signed-in email is 401, and every write but submit is 403 without the admin role |
| Server.SubmitRoute | server.js:331-375 | the handler computes exactly `SubmitBody` on the database |
| Server.Submit | server.js:330 | the gated handler computes exactly the guarded `SubmitBody` |
| Server.Update | server.js:428-452 | the gated handler computes exactly the guarded `UpdateBody` |
| Server.DeleteRoute | server.js:456-489 | the handler computes exactly `DeleteBody` on the database |
| Server.Delete | server.js:455 | the gated handler computes exactly the guarded `DeleteBody` |
| Server.AddUser | server.js:503-521 | the gated handler computes exactly the guarded `AddUserBody` |
| Server.SetRole | server.js:523-535 | the gated handler computes exactly the guarded `SetRoleBody` |
| Server.RemoveUser | server.js:537-545 | the gated handler computes exactly the guarded `RemoveUserBody` |
| Server.Serve | server.js:239-545 | dispatching a request keeps the invariant and computes exactly `Respond` |
| Server.ServeData | server.js:330-490 | the data handlers compute exactly `RespondData` |
| Server.ServeUsers | server.js:239-545 | `/api/me` and the user handlers compute exactly `RespondUsers` |
| ServerProperties.FalsyValues | server.js:357 | a submitted 0 is stored as null by submit, kept by update (line 440), and reported missing when required (line 344) |
| ServerProperties.SubmittedCell | server.js:355-362 | the stored cell of a field is `data[id] \|\| null` |
| ServerProperties.UpdatedCell | server.js:438-442 | after an update the row's cell of a field is its update value |
| ServerProperties.SubmitThenGet | server.js:364-374 | the entry just saved is what the get route returns for the reported id |
| ServerProperties.GetNewest | server.js:415-423 | get returns the last row when no earlier row has its id |
| ServerProperties.DeleteTwice | server.js:479-486 | a second delete of the same entry is a 404 that changes nothing |
| ServerProperties.DeleteAbsent | server.js:484-486 | deleting an id no row has is a 404 that changes no stored row, user or file, and leaves a table holding rows exactly as it was |
| ServerProperties.SubmitRejectsMissing | server.js:343-352 | an entry missing a required value is refused and nothing is stored |
| ServerProperties.AddedUserIsFound | server.js:512 | an added user has the new role on `/api/me` under any address that normalises to the stored one |
| ServerProperties.FoundAfterWrite | server.js:178 | a role stored under a normalised address is found by every address normalising to it, and none after its removal |
| ServerProperties.RemovedUserIsRefused | server.js:540 | a removed user is refused with 403 by every gate |
| ServerProperties.MeAgreesWithGates | server.js:245-247 | the `/api/me` flags equal the gates' verdicts |
| ServerProperties.InitialAdmins | server.js:112-113 | an initial admin without a row passes the admin gate after start-up; one with a row keeps its role |
| UpnpServer.BuildColumns | server-upnp.js:58-69 | the `columns` loop builds exactly `CreateColumns` |
| UpnpServer.InitializeDatabase | server-upnp.js:51-90 | every CREATE runs; the schema and outcome are `CreateAll`; nothing else changes |
| UpnpServer.Respond | server-upnp.js:156-289 | only submit, list, get and delete exist, nothing is ever 401 or 403, anything else is 404 |
| UpnpServer.Serve | server-upnp.js:156-289 | the handlers compute exactly `Respond` and keep the invariant |
| UpnpServer.SameAsForAdmin | server-upnp.js:156-202 | the ungated routes answer everyone as the authenticated ones answer an admin |
| SqliteWrapper.Deliver | lib/sqlite-wrapper.js:61-63 | errors and results go to the callback, and to nobody when none was given |
| SqliteWrapper.BuildRecord | lib/sqlite-wrapper.js:12-13 | the `forEach` fills exactly `Zip(columns, row)` |
| SqliteWrapper.ObjectsOf | lib/sqlite-wrapper.js:9-16 | no objects for absent values, otherwise one per value row in order |
| SqliteWrapper.RowsToObjects | lib/sqlite-wrapper.js:9-16 | the loop yields exactly `ObjectsOf` |
| SqliteWrapper.RecordAt | lib/sqlite-wrapper.js:13 | `obj[columns[i]] = row[i]` for a name not repeated later |
| SqliteWrapper.AllRows | lib/sqlite-wrapper.js:93-96 | `all` gives no rows when there is no result set with column names |
| SqliteWrapper.FirstRow | lib/sqlite-wrapper.js:75-79 | `get` gives a row iff the first result set has columns and a value row |
| SqliteWrapper.GetIsFirstOfAll | lib/sqlite-wrapper.js:67-101 | `get` yields the first of the rows `all` yields, or null when it yields none |
| SqliteWrapper.Get | lib/sqlite-wrapper.js:67-84 | binds the normalised parameters and delivers the first row, or the error |
| SqliteWrapper.All | lib/sqlite-wrapper.js:86-101 | binds the normalised parameters and delivers all rows, or the error |
| SqliteWrapper.RunContext | lib/sqlite-wrapper.js:49-59 | `lastID` is 0 unless the statement is an INSERT and the rowid query answered; `changes` is the engine's count or 0 |
| SqliteWrapper.Run | lib/sqlite-wrapper.js:41-65 | binds the normalised parameters and delivers the context, or the error |
| SqliteWrapper.LeadingWord | lib/sqlite-wrapper.js:53 | after leading white space, the trimmed, upper-cased text starts with the statement's first word |
| SqliteWrapper.InsertIsDetected | lib/sqlite-wrapper.js:53-54 | an INSERT in any letter case and indentation sets `lastID` |
| SqliteWrapper.OtherStatementsAreNot | lib/sqlite-wrapper.js:53-54 | UPDATE, DELETE, SELECT and the other statements leave `lastID` at 0 |
| WebClient.NextSort | public/app.js:879-885 | the clicked column becomes the sort; the same column flips the order, another sorts ascending (the same code as src/public/app.js:569-575) |
| WebClient.SortToggles | public/app.js:880-881 | two clicks on the current column restore the sort |
| WebClient.AuthAfter | public/app.js:23-46 | everything false or null unless the response is ok, then each flag only for a JSON `true` |
| WebClient.Page.constructor | public/app.js:7-13 | the page starts sorted by `timestamp` descending and signed out |
| WebClient.Page.SortData | public/app.js:879-887 | the sort state becomes `NextSort` of the old one |
| WebClient.Page.CheckAuth | public/app.js:23-50 | the auth state becomes `AuthAfter` of the response, and the result is `isAuthenticated` |
| WebClient.Page.Logout | public/app.js:81-95 | every flag is cleared whatever the request did |
| WebClient.Entry | public/app.js:453-467 | a file field always gets its hidden value or null; another field an entry iff its input exists; a checkbox 1 or 0 |
| WebClient.CollectFormData | public/app.js:450-471 | the loop yields exactly `Collect`; null iff validity is required, some field is invalid, and the map is empty |
| WebClient.CollectKeys | public/app.js:453-468 | exactly the ids of fields with an entry are keys |
| WebClient.CollectValid | public/app.js:465 | `valid` stays true iff no required field with an input is empty or unchecked |
| WebClient.CollectEntry | public/app.js:453-468 | a field whose id no later field repeats keeps its own entry |
| WebClient.CollectNeverNull | public/app.js:470 | the map is never empty once `valid` is false, so `collectFormData(true)` never returns null |
| WebClient.MissingLabels | public/app.js:694-697 | the labels of required fields whose value is null, undefined or `''`; a label is listed iff such a field has it; empty iff none |
| WebClient.MissingInOrder | public/app.js:694-697 | the alert lists the missing labels in configuration order, one per missing field |
| WebClient.AddUserEmail | public/app.js:607-611 | no request for an address blank after trimming; otherwise the trimmed, lower-cased address |
| WebClient.PayloadValid | public/app.js:491 | a payload is accepted exactly when its `type` and `data` are both truthy: a non-empty `type` and a `data` that is not null |
| WebClient.QrPayloadAccepted | public/app.js:427-433 | a code made for a selected type is accepted even with an empty form |
| WebClient.ImageSrc | public/app.js:831 | a path starting with `http` or `/` is kept, any other gets a leading `/`; the result starts with one of them (the same code as src/public/app.js:521) |
| WebClient.ImageSrcIdempotent | public/app.js:831 | normalising twice equals normalising once |
| WebClient.FormatCell | public/app.js:828-840 | a truthy file value is an image (a render error when not a string); null or undefined shows `-`; a checkbox `Yes` or `No` by truthiness; anything else as is (the same code as src/public/app.js:518-530) |
| LegacyClient.LegacyPage.constructor | src/public/app.js:7-11 | the older page starts sorted by `timestamp` descending and signed out |
| LegacyClient.LegacyPage.SortData | src/public/app.js:569-577 | the sort state becomes `NextSort` of the old one |
| LegacyClient.LegacyPage.CheckAuth | src/public/app.js:21-41 | the three flags it keeps follow the current page's rule |
| LegacyClient.LegacyEntry | src/public/app.js:382-396 | a file field has an entry iff its hidden input exists; other fields as in the current client |
| LegacyClient.SubmitDataKeys | src/public/app.js:380-397 | only field ids are keys of the form data |
| LegacyClient.CollectSubmitData | src/public/app.js:380-397 | the `forEach` yields exactly `SubmitData` |
| LegacyClient.SameDataButNulls | src/public/app.js:382-386 | with distinct ids the two clients send the same values, except that the current one sends null where the older has no key |
| EndToEnd.UncheckedCheckbox | public/app.js:460-465 | an unchecked checkbox is sent as 0; the client lets it through; the server reports it missing when required; submit stores null (shown `-`) and update keeps 0 (shown `No`) |
| EndToEnd.MeFlagsMatchGates | public/app.js:28-32 | from the `/api/me` reply the page offers upload, edit and user management exactly when the middleware passes, and nothing when signed out |
| EndToEnd.ClientEmailIsStored | public/app.js:607 | the address the user form sends is already in the form the server stores |
| EndToEnd.SortReachesServer | server.js:388-393 | a click on an accepted column reaches the database as that column, ascending exactly for `asc` |

## Left out

- Google OAuth, passport, the session cookie and `/api/logout` on the server are left out. The session is a parameter: anonymous, or a signed-in profile whose email may be missing.
- The health, scouting-types, fields and upload routes and `GET /api/users` are left out. They only read the configuration, store a file, or list rows with no rule of their own.
- multer's storage and file names, the uploads directory, and `path.join` are left out. Uploaded files are a set of path strings, and a picture path is used as it is.
- The SQL engine is left out. SQL text, parameter binding by position, type affinity, `PRAGMA` output beyond the column names, `db.export` and saving to disk are not modelled. Statements act on the rows directly.
- `Store.SelectAll`: ORDER BY is not modelled. Rows come back in rowid order, and the sort the route asked for is part of the reply.
- `Store.InsertRun`: the model does not write the rowid through a column named `id`. A field named `id` (in any case) makes the INSERT an error, and the same holds for UPDATE.
- `Store.InsertUserRun`: `lastID` of a new user is not the engine's rowid. The route never shows it beyond the 201 reply.
- `Store.InsertCells` and `Store.UpdateCells`: a column named twice takes the first value in an INSERT and the last in an UPDATE. This follows SQLite's documented behaviour, not code in this repository.
- Database errors on the `users` table are left out. These are the 500s of the middleware and of `/api/me`, and a failed INSERT OR IGNORE.
- A users table or scouting table that a configured type collides with is not modelled. The users table is kept apart from the scouting tables.
- Table names are compared exactly. SQLite ignores letter case in them, so two types whose `tableName` differ only in case share one table there, and two tables here.
- `Server.InitializeDatabase`: async ordering is not modelled. The listener may accept requests before the synchroniser finishes. The model runs start-up to completion first, and `ok` is the outcome of the start-up promise. That a rejected promise ends the process is not modelled.
- `UpnpServer.InitializeDatabase`: `process.exit` on failure is not modelled. `ok` is the outcome of `Promise.all`.
- URI decoding of `:email`, and the parsing of `:id` into a number, are not modelled. Routes take the decoded address and an integer id.
- Case conversion covers ASCII letters only. Trimming removes ASCII white space and the Unicode spaces JavaScript trims. Unicode case mapping is not modelled.
- Numbers are real numbers. NaN, infinities and floating-point rounding are not modelled. Objects and arrays are one truthy value.
- Keys inherited from `Object.prototype` (`data['constructor']`) are not modelled. Only own keys are read.
- The clock reading stamped into `timestamp` is a parameter. `toLocaleString` formatting is left out.
- DOM construction, `fetch`, `res.json()` and `updateAuthUI`/`updateFormPermissions` are left out. `checkAuth` takes the outcome of `fetch`.
- The `loadData` reload after `sortData` and `logout` is left out. The base64 and JSON encoding of the QR payload, and the QR library, are left out too. Only the rule that `type` and `data` must be present is kept.
- IP discovery, UPnP, ngrok and the port-forwarding helpers are left out, as are the start-up log lines and the SIGINT handler. They are network and process plumbing.
- The wrapper's `prepare`, `close` and `openDatabase` are left out. They only forward to the engine or read the file.
- `SqliteWrapper.Run`: `setImmediate` scheduling and the `this` binding of the callback are left out. Delivery is a value, not a later call.
