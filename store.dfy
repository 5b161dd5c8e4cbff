/**
 The database the servers talk to, at the level of the SQL statements they
 issue: scouting tables (a schema plus rows), the AUTOINCREMENT counters, the
 `users` table and the files under `uploads/`. Row operations are functions on
 sequences of rows; the `Database` class holds the state the statements change.
 */
module Store {
  import opened JsValues
  import opened Schema
  import opened Auth
  import Text

  /** A stored row: its rowid and its cells, keyed by lower-cased column name
      (SQLite resolves column names without regard to ASCII case). */
  datatype Row = Row(id: nat, cells: map<string, Value>)

  /** Reading one column of a row: `id` is the rowid, and a column the row has
      no cell for (one added by ALTER TABLE after the row was written, or left
      out of the INSERT) reads as NULL. */
  function CellOf(row: Row, column: string): Value {
    var k := Text.ToLower(column);
    if k == "id" then Num(row.id as real)
    else if k in row.cells then row.cells[k]
    else Null
  }

  /** The object `SELECT *` yields for a row: one key per column. */
  function RowObject(cols: seq<Column>, row: Row): (r: Object)
    ensures r.Keys == set c | c in Names(cols)
  {
    Zip(Names(cols), seq(|cols|, i requires 0 <= i < |cols| => CellOf(row, cols[i].name)))
  }

  /** Each key of a row object holds that column's value. */
  lemma RowObjectAt(cols: seq<Column>, row: Row, name: string)
    requires name in Names(cols)
    ensures RowObject(cols, row)[name] == CellOf(row, name)
  {
    var vals := seq(|cols|, i requires 0 <= i < |cols| => CellOf(row, cols[i].name));
    ZipConsistent(Names(cols), vals, name, CellOf(row, name));
  }

  /** A column `name` of `row`, read through its object, as `row.robotPicture`
      does: undefined when the table has no such column. */
  lemma RowObjectGet(cols: seq<Column>, row: Row, name: string)
    ensures Get(RowObject(cols, row), name) == if name in Names(cols) then CellOf(row, name) else Undefined
  {
    if name in Names(cols) {
      RowObjectAt(cols, row, name);
    }
  }

  /** Rows are kept in rowid order, one row per rowid. */
  predicate IdsIncreasing(rows: seq<Row>) {
    forall i, j :: 0 <= i < j < |rows| ==> rows[i].id < rows[j].id
  }

  predicate IdsAtMost(rows: seq<Row>, n: nat) {
    forall i :: 0 <= i < |rows| ==> rows[i].id <= n
  }

  /** The row `WHERE id = ?` selects first. */
  function FindRow(rows: seq<Row>, id: int): (r: Option<nat>)
    ensures r.Some? ==> r.value < |rows| && rows[r.value].id == id
    ensures r.Some? ==> forall i :: 0 <= i < r.value ==> rows[i].id != id
    ensures r.None? <==> forall i :: 0 <= i < |rows| ==> rows[i].id != id
  {
    if |rows| == 0 then None
    else if rows[0].id == id then Some(0)
    else
      match FindRow(rows[1..], id)
      case None => None
      case Some(k) => Some(k + 1)
  }

  /** The number of rows `WHERE id = ?` matches: the `changes` of an UPDATE or DELETE. */
  function CountId(rows: seq<Row>, id: int): (n: nat)
    ensures n <= |rows|
    ensures n == 0 <==> forall i :: 0 <= i < |rows| ==> rows[i].id != id
  {
    if |rows| == 0 then 0
    else (if rows[0].id == id then 1 else 0) + CountId(rows[1..], id)
  }

  /** Rowids are unique, so a statement keyed on `id` changes at most one row. */
  lemma {:induction false} CountAtMostOne(rows: seq<Row>, id: int)
    requires IdsIncreasing(rows)
    ensures CountId(rows, id) <= 1
    ensures CountId(rows, id) == 1 <==> FindRow(rows, id).Some?
  {
    if |rows| > 0 {
      CountAtMostOne(rows[1..], id);
      if rows[0].id == id {
        assert forall i :: 1 <= i < |rows| ==> rows[i].id != id;
        assert CountId(rows[1..], id) == 0;
      }
    }
  }

  /** `DELETE FROM t WHERE id = ?` */
  function RemoveId(rows: seq<Row>, id: int): (r: seq<Row>)
    ensures forall x :: x in r <==> x in rows && x.id != id
    ensures IdsIncreasing(rows) ==> IdsIncreasing(r)
  {
    if |rows| == 0 then []
    else
      var rest := RemoveId(rows[1..], id);
      assert forall x :: x in rows <==> x == rows[0] || x in rows[1..];
      if rows[0].id == id then rest
      else
        assert IdsIncreasing(rows) ==> IdsIncreasing([rows[0]] + rest) by {
          if IdsIncreasing(rows) {
            forall k | 0 <= k < |rest| ensures rows[0].id < rest[k].id {
              assert rest[k] in rows[1..];
            }
            ConsIncreasing(rows[0], rest);
          }
        }
        [rows[0]] + rest
  }

  /** DELETE removes exactly the rows it counts as changed. */
  lemma {:induction false} RemoveIdCount(rows: seq<Row>, id: int)
    ensures |RemoveId(rows, id)| == |rows| - CountId(rows, id)
  {
    if |rows| > 0 {
      RemoveIdCount(rows[1..], id);
    }
  }

  lemma ConsIncreasing(first: Row, rest: seq<Row>)
    requires IdsIncreasing(rest) && forall k :: 0 <= k < |rest| ==> first.id < rest[k].id
    ensures IdsIncreasing([first] + rest)
  {
    var r := [first] + rest;
    assert forall k :: 1 <= k < |r| ==> r[k] == rest[k - 1];
  }

  /** Deleting keeps every other row and its order: the result is what the
      table would hold had the deleted row never been inserted. */
  lemma {:induction false} RemoveAbsent(rows: seq<Row>, id: int)
    requires forall i :: 0 <= i < |rows| ==> rows[i].id != id
    ensures RemoveId(rows, id) == rows
  {
    if |rows| > 0 {
      assert forall i :: 0 <= i < |rows| - 1 ==> rows[1..][i] == rows[i + 1];
      RemoveAbsent(rows[1..], id);
      assert [rows[0]] + rows[1..] == rows;
    }
  }

  /** `UPDATE t SET ... WHERE id = ?`: the matching rows take the written cells. */
  function UpdateId(rows: seq<Row>, id: int, written: map<string, Value>): (r: seq<Row>)
    ensures |r| == |rows|
    ensures forall i :: 0 <= i < |rows| ==> r[i].id == rows[i].id
    ensures CountId(rows, id) == 0 ==> r == rows
  {
    seq(|rows|, i requires 0 <= i < |rows| =>
      if rows[i].id == id then Row(rows[i].id, rows[i].cells + written) else rows[i])
  }

  lemma UpdateKeepsIds(rows: seq<Row>, id: int, written: map<string, Value>)
    requires IdsIncreasing(rows)
    ensures IdsIncreasing(UpdateId(rows, id, written))
  {
  }

  /** The cells of `INSERT INTO t (cols) VALUES (vals)`; SQLite maps each table
      column to the first place the list names it. */
  function InsertCells(cols: seq<string>, vals: seq<Value>): (r: map<string, Value>)
    requires |vals| == |cols|
    ensures forall c :: c in cols ==> Text.ToLower(c) in r
  {
    if |cols| == 0 then map[]
    else
      var rest := InsertCells(cols[1..], vals[1..]);
      assert forall c :: c in cols[1..] ==> c in cols;
      rest[Text.ToLower(cols[0]) := vals[0]]
  }

  /** The value a column receives is the one of its first occurrence in the list. */
  lemma {:induction false} InsertCellsAt(cols: seq<string>, vals: seq<Value>, i: nat)
    requires |vals| == |cols| && i < |cols|
    requires forall j :: 0 <= j < i ==> Text.ToLower(cols[j]) != Text.ToLower(cols[i])
    ensures InsertCells(cols, vals)[Text.ToLower(cols[i])] == vals[i]
  {
    if i > 0 {
      assert forall j :: 0 <= j < i - 1 ==> cols[1..][j] == cols[j + 1];
      InsertCellsAt(cols[1..], vals[1..], i - 1);
    }
  }

  /** The cells of `SET c1 = ?, c2 = ?, ...`; a column named twice takes its last value. */
  function UpdateCells(cols: seq<string>, vals: seq<Value>): (r: map<string, Value>)
    requires |vals| == |cols|
    ensures forall c :: c in cols ==> Text.ToLower(c) in r
  {
    if |cols| == 0 then map[]
    else
      var n := |cols| - 1;
      var rest := UpdateCells(cols[..n], vals[..n]);
      assert forall c :: c in cols ==> c in cols[..n] || c == cols[n];
      rest[Text.ToLower(cols[n]) := vals[n]]
  }

  /** The value a column receives is the one of its last occurrence in the list. */
  lemma {:induction false} UpdateCellsAt(cols: seq<string>, vals: seq<Value>, i: nat)
    requires |vals| == |cols| && i < |cols|
    requires forall j :: i < j < |cols| ==> Text.ToLower(cols[j]) != Text.ToLower(cols[i])
    ensures UpdateCells(cols, vals)[Text.ToLower(cols[i])] == vals[i]
  {
    var n := |cols| - 1;
    if i < n {
      var prefix := cols[..n];
      assert prefix[i] == cols[i];
      assert forall j :: i < j < n ==> prefix[j] == cols[j];
      UpdateCellsAt(prefix, vals[..n], i);
      assert vals[..n][i] == vals[i];
      assert UpdateCells(cols, vals) == UpdateCells(prefix, vals[..n])[Text.ToLower(cols[n]) := vals[n]];
    }
  }

  lemma AppendKeepsOrder(rows: seq<Row>, row: Row, n: nat)
    ensures IdsIncreasing(rows) && IdsAtMost(rows, n) && row.id == n + 1 ==>
              IdsIncreasing(rows + [row]) && IdsAtMost(rows + [row], n + 1)
  {
  }

  /** A column list a statement may write: non-empty (an empty list is a SQL
      syntax error), every name a column of the table, and none the rowid `id`. */
  predicate Writable(cols: seq<Column>, names: seq<string>) {
    |names| > 0 && forall i :: 0 <= i < |names| ==> NameClash(names[i], cols) && Text.ToLower(names[i]) != "id"
  }

  /** The row an INSERT stores: the named cells, and `timestamp` defaulting to
      the statement's clock reading when it is not named. */
  function NewRow(id: nat, names: seq<string>, vals: seq<Value>, now: string): Row
    requires |vals| == |names|
  {
    var cells := InsertCells(names, vals);
    Row(id, if "timestamp" in cells then cells else cells["timestamp" := Str(now)])
  }

  /** The outcome of `run`: the statement's `this.lastID` and `this.changes`,
      or an error (`unique` when it is a UNIQUE constraint violation). */
  datatype RunResult = RunOk(lastID: nat, changes: nat) | RunErr(unique: bool)

  /** The outcome of `get`: an error, no row, or the first row. */
  datatype Fetched = FetchErr | NoRow | OneRow(obj: Object)

  /** The outcome of `all`. */
  datatype Listing = ListErr | Rows(objs: seq<Object>)

  /** Everything the statements read and change. `files` are the paths that
      exist under the server's directory. */
  datatype DbState = DbState(
    schema: Tables,
    rows: map<string, seq<Row>>,
    sequence: map<string, nat>,
    users: Users,
    files: set<string>)

  /** The rows of a table; a table with no entry holds none. */
  function RowsIn(s: DbState, table: string): seq<Row> {
    if table in s.rows then s.rows[table] else []
  }

  /** `sqlite_sequence`: the largest rowid a table has handed out. */
  function SeqOf(s: DbState, table: string): nat {
    if table in s.sequence then s.sequence[table] else 0
  }

  /** Rows exist only in tables that exist, every table starts with `id` and
      `timestamp`, and each table's rowids increase and stay at or below its
      AUTOINCREMENT counter. */
  ghost predicate ValidState(s: DbState) {
    s.rows.Keys <= s.schema.Keys && BaseFirst(s.schema) &&
    forall t :: t in s.rows ==> IdsIncreasing(s.rows[t]) && IdsAtMost(s.rows[t], SeqOf(s, t))
  }

  /** The `users` table and the uploaded files play no part in the invariant
      of the scouting tables. */
  lemma ValidIgnoresUsers(s: DbState, users: Users, files: set<string>)
    requires ValidState(s)
    ensures ValidState(s.(users := users, files := files))
  {
    var s' := s.(users := users, files := files);
    assert forall t :: SeqOf(s', t) == SeqOf(s, t);
  }

  /** A statement's new state and its outcome. */
  datatype Ran = Ran(state: DbState, result: RunResult)

  /** `INSERT INTO table (names) VALUES (vals)`: the new row takes the next
      AUTOINCREMENT rowid, which `this.lastID` reports; an unknown table or
      column, or an empty column list, is an error that changes nothing. */
  function InsertRun(s: DbState, table: string, names: seq<string>, vals: seq<Value>, now: string): (r: Ran)
    requires |vals| == |names|
    ensures ValidState(s) ==> ValidState(r.state)
    ensures r.result.RunOk? <==> table in s.schema && Writable(s.schema[table], names)
    ensures r.result.RunErr? ==> r == Ran(s, RunErr(false))
    ensures r.result.RunOk? ==> r.result == RunOk(SeqOf(s, table) + 1, 1)
    ensures r.result.RunOk? ==> r.state.rows == s.rows[table := RowsIn(s, table) + [NewRow(SeqOf(s, table) + 1, names, vals, now)]]
    ensures r.result.RunOk? ==> r.state == s.(rows := r.state.rows, sequence := s.sequence[table := SeqOf(s, table) + 1])
  {
    if table in s.schema && Writable(s.schema[table], names) then
      var id := SeqOf(s, table) + 1;
      var row := NewRow(id, names, vals, now);
      AppendKeepsOrder(RowsIn(s, table), row, id - 1);
      var s' := s.(rows := s.rows[table := RowsIn(s, table) + [row]], sequence := s.sequence[table := id]);
      assert forall t :: t in s'.rows && t != table ==> s'.rows[t] == s.rows[t] && SeqOf(s', t) == SeqOf(s, t);
      Ran(s', RunOk(id, 1))
    else Ran(s, RunErr(false))
  }

  /** `UPDATE table SET names = vals WHERE id = ?`: `this.changes` counts the
      rows whose rowid is `id`. */
  function UpdateRun(s: DbState, table: string, names: seq<string>, vals: seq<Value>, id: int): (r: Ran)
    requires |vals| == |names|
    ensures ValidState(s) ==> ValidState(r.state)
    ensures r.result.RunOk? <==> table in s.schema && Writable(s.schema[table], names)
    ensures r.result.RunErr? ==> r == Ran(s, RunErr(false))
    ensures r.result.RunOk? ==> r.result.changes == CountId(RowsIn(s, table), id)
    ensures r.result.RunOk? ==> r.state == s.(rows := s.rows[table := UpdateId(RowsIn(s, table), id, UpdateCells(names, vals))])
  {
    if table in s.schema && Writable(s.schema[table], names) then
      var s' := s.(rows := s.rows[table := UpdateId(RowsIn(s, table), id, UpdateCells(names, vals))]);
      assert forall t :: t in s'.rows && t != table ==> s'.rows[t] == s.rows[t];
      Ran(s', RunOk(0, CountId(RowsIn(s, table), id)))
    else Ran(s, RunErr(false))
  }

  /** `DELETE FROM table WHERE id = ?` */
  function DeleteRun(s: DbState, table: string, id: int): (r: Ran)
    ensures ValidState(s) ==> ValidState(r.state)
    ensures r.result.RunOk? <==> table in s.schema
    ensures r.result.RunErr? ==> r == Ran(s, RunErr(false))
    ensures r.result.RunOk? ==> r.result.changes == CountId(RowsIn(s, table), id)
    ensures r.result.RunOk? ==> r.state == s.(rows := s.rows[table := RemoveId(RowsIn(s, table), id)])
  {
    if table in s.schema then
      var before := RowsIn(s, table);
      var s' := s.(rows := s.rows[table := RemoveId(before, id)]);
      assert forall k :: 0 <= k < |s'.rows[table]| ==> s'.rows[table][k] in before;
      assert forall t :: t in s'.rows && t != table ==> s'.rows[t] == s.rows[t];
      Ran(s', RunOk(0, CountId(before, id)))
    else Ran(s, RunErr(false))
  }

  /** `SELECT * FROM table WHERE id = ?` through `get`: the first matching row. */
  function GetById(s: DbState, table: string, id: int): (r: Fetched)
    ensures r == FetchErr <==> table !in s.schema
    ensures r == NoRow <==> table in s.schema && forall i :: 0 <= i < |RowsIn(s, table)| ==> RowsIn(s, table)[i].id != id
    ensures r.OneRow? ==> exists i :: 0 <= i < |RowsIn(s, table)| && RowsIn(s, table)[i].id == id &&
                                       r.obj == RowObject(s.schema[table], RowsIn(s, table)[i])
  {
    if table !in s.schema then FetchErr
    else
      match FindRow(RowsIn(s, table), id)
      case None => NoRow
      case Some(k) => OneRow(RowObject(s.schema[table], RowsIn(s, table)[k]))
  }

  /** `SELECT * FROM table ORDER BY column ...` through `all`: every row of the
      table as an object; an unknown table or sort column is an error. The
      order the engine sorts into is not modelled: rows come in rowid order. */
  function SelectAll(s: DbState, table: string, sortColumn: string): (r: Listing)
    ensures r == ListErr <==> table !in s.schema || !NameClash(sortColumn, s.schema[table])
    ensures r.Rows? ==> |r.objs| == |RowsIn(s, table)|
    ensures r.Rows? ==> forall i :: 0 <= i < |RowsIn(s, table)| ==> r.objs[i] == RowObject(s.schema[table], RowsIn(s, table)[i])
  {
    if table !in s.schema || !NameClash(sortColumn, s.schema[table]) then ListErr
    else
      var cols, rs := s.schema[table], RowsIn(s, table);
      Rows(seq(|rs|, i requires 0 <= i < |rs| => RowObject(cols, rs[i])))
  }

  /** `INSERT INTO users (email, role) VALUES (?, ?)`; the UNIQUE constraint on
      `email` rejects a second row for an address. */
  function InsertUserRun(s: DbState, email: string, role: Role): (r: Ran)
    ensures r.result.RunErr? <==> email in s.users
    ensures r.result.RunErr? ==> r == Ran(s, RunErr(true))
    ensures r.result.RunOk? ==> r.state == s.(users := s.users[email := role])
  {
    if email in s.users then Ran(s, RunErr(true))
    else Ran(s.(users := s.users[email := role]), RunOk(|s.users| + 1, 1))
  }

  /** `UPDATE users SET role = ? WHERE email = ?` */
  function SetUserRoleRun(s: DbState, email: string, role: Role): (r: Ran)
    ensures r.result == RunOk(0, if email in s.users then 1 else 0)
    ensures r.state == if email in s.users then s.(users := s.users[email := role]) else s
  {
    if email in s.users then Ran(s.(users := s.users[email := role]), RunOk(0, 1))
    else Ran(s, RunOk(0, 0))
  }

  /** `DELETE FROM users WHERE email = ?` */
  function DeleteUserRun(s: DbState, email: string): (r: Ran)
    ensures r.result == RunOk(0, if email in s.users then 1 else 0)
    ensures r.state == s.(users := s.users - {email})
  {
    Ran(s.(users := s.users - {email}), RunOk(0, if email in s.users then 1 else 0))
  }

  class Database {
    var schema: Tables
    var rows: map<string, seq<Row>>
    var sequence: map<string, nat>
    var users: Users
    var files: set<string>

    function State(): DbState
      reads this
    {
      DbState(schema, rows, sequence, users, files)
    }

    ghost predicate Valid()
      reads this
    {
      ValidState(State())
    }

    function Seq(table: string): nat
      reads this
    {
      if table in sequence then sequence[table] else 0
    }

    constructor (existing: set<string>)
      ensures Valid()
      ensures State() == DbState(map[], map[], map[], map[], existing)
    {
      schema, rows, sequence, users, files := map[], map[], map[], map[], existing;
    }

    /** `CREATE TABLE IF NOT EXISTS name (cols)` */
    method CreateTable(name: string, cols: seq<Column>) returns (ok: bool)
      requires Valid() && BaseColumns <= cols
      modifies this`schema
      ensures Valid()
      ensures Synced(schema, ok) == Schema.CreateTable(old(schema), name, cols)
    {
      if name in schema {
        ok := true;
      } else if HasDuplicate(cols) {
        ok := false;
      } else {
        schema := schema[name := cols];
        ok := true;
      }
    }

    /** `PRAGMA table_info(name)` mapped to the column names. */
    function TableInfo(name: string): (r: seq<string>)
      reads this
      ensures name in schema ==> r == Names(schema[name])
      ensures name !in schema ==> r == []
    {
      if name in schema then Names(schema[name]) else []
    }

    /** `ALTER TABLE name ADD COLUMN col`: fails when the name clashes with a
        column the table has; existing rows read the new column as NULL. */
    method AddColumn(name: string, col: Column) returns (ok: bool)
      requires Valid() && name in schema
      modifies this`schema
      ensures Valid()
      ensures ok == !NameClash(col.name, old(schema)[name])
      ensures schema == if ok then old(schema)[name := old(schema)[name] + [col]] else old(schema)
    {
      ok := !NameClash(col.name, schema[name]);
      if ok {
        schema := schema[name := schema[name] + [col]];
      }
    }

    /** Runs the INSERT: the engine's effect is `InsertRun`. */
    method Insert(table: string, names: seq<string>, vals: seq<Value>, now: string) returns (r: RunResult)
      requires Valid() && |vals| == |names|
      modifies this`rows, this`sequence
      ensures Valid()
      ensures Ran(State(), r) == InsertRun(old(State()), table, names, vals, now)
    {
      var ran := InsertRun(State(), table, names, vals, now);
      rows, sequence, r := ran.state.rows, ran.state.sequence, ran.result;
    }

    method Update(table: string, names: seq<string>, vals: seq<Value>, id: int) returns (r: RunResult)
      requires Valid() && |vals| == |names|
      modifies this`rows
      ensures Valid()
      ensures Ran(State(), r) == UpdateRun(old(State()), table, names, vals, id)
    {
      if table in schema && Writable(schema[table], names) {
        var before := RowsIn(State(), table);
        r := RunOk(0, CountId(before, id));
        rows := rows[table := UpdateId(before, id, UpdateCells(names, vals))];
      } else {
        r := RunErr(false);
      }
    }

    method Delete(table: string, id: int) returns (r: RunResult)
      requires Valid()
      modifies this`rows
      ensures Valid()
      ensures Ran(State(), r) == DeleteRun(old(State()), table, id)
    {
      if table in schema {
        var before := RowsIn(State(), table);
        r := RunOk(0, CountId(before, id));
        rows := rows[table := RemoveId(before, id)];
      } else {
        r := RunErr(false);
      }
    }

    method InsertUser(email: string, role: Role) returns (r: RunResult)
      modifies this`users
      ensures Ran(State(), r) == InsertUserRun(old(State()), email, role)
    {
      if email in users {
        r := RunErr(true);
      } else {
        r := RunOk(|users| + 1, 1);
        users := users[email := role];
      }
    }

    /** `INSERT OR IGNORE INTO users (email, role) VALUES (?, ?)` */
    method InsertUserOrIgnore(email: string, role: Role)
      modifies this`users
      ensures users == if email in old(users) then old(users) else old(users)[email := role]
    {
      if email !in users {
        users := users[email := role];
      }
    }

    method SetUserRole(email: string, role: Role) returns (r: RunResult)
      modifies this`users
      ensures Ran(State(), r) == SetUserRoleRun(old(State()), email, role)
    {
      if email in users {
        users := users[email := role];
        r := RunOk(0, 1);
      } else {
        r := RunOk(0, 0);
      }
    }

    method DeleteUser(email: string) returns (r: RunResult)
      modifies this`users
      ensures Ran(State(), r) == DeleteUserRun(old(State()), email)
    {
      r := RunOk(0, if email in users then 1 else 0);
      users := users - {email};
    }

    /** `if (fs.existsSync(p)) fs.unlinkSync(p)` */
    method RemoveFileIfExists(path: string)
      modifies this`files
      ensures files == old(files) - {path}
    {
      if path in files {
        files := files - {path};
      }
    }
  }
}
