/**
 The callback interface the servers use over the in-memory SQL engine
 (lib/sqlite-wrapper.js): how `run`, `get` and `all` read their arguments,
 how result sets become row objects, and what `run` reports in `this`.
 The engine is not modelled: what it returns for a statement is a parameter.
 */
module SqliteWrapper {
  import opened JsValues
  import Text

  /** One result set of the engine's `exec`: its column names and its rows,
      either of which may be absent. */
  datatype ResultSet = ResultSet(columns: Option<seq<string>>, values: Option<seq<seq<Value>>>)

  /** What the caller put in the `params` position: a callback, a list of
      values, or a falsy value (null, undefined). */
  datatype Param<F> = FnArg(f: F) | ListArg(items: seq<Value>) | NoArg

  /** The parameters bound to the statement and the callback that is called. */
  datatype Args<F> = Args(bound: seq<Value>, callback: Option<F>)

  /** `if (typeof params === 'function') { callback = params; params = []; }
      params = params || [];` */
  function NormalizeArgs<F>(params: Param<F>, callback: Option<F>): (r: Args<F>)
    ensures params.FnArg? ==> r == Args([], Some(params.f))
    ensures params.ListArg? ==> r == Args(params.items, callback)
    ensures params.NoArg? ==> r == Args([], callback)
  {
    match params
    case FnArg(f) => Args([], Some(f))
    case ListArg(items) => Args(items, callback)
    case NoArg => Args([], callback)
  }

  /** Whom the wrapper calls back and with what: nobody (no callback was
      given), the callback with the error, or the callback with a result. */
  datatype Delivery<F, T> = Undelivered | Failure(to: F) | Success(to: F, result: T)

  /** Errors go to the callback, never to the caller. */
  function Deliver<F, T>(callback: Option<F>, failed: bool, result: T): (d: Delivery<F, T>)
    ensures callback.None? <==> d.Undelivered?
    ensures d.Failure? <==> callback.Some? && failed
    ensures d.Success? <==> callback.Some? && !failed
    ensures !d.Undelivered? ==> d.to == callback.value
    ensures d.Success? ==> d.result == result
  {
    match callback
    case None => Undelivered
    case Some(f) => if failed then Failure(f) else Success(f, result)
  }

  // ---------------------------------------------------------------------------
  // Row objects

  /** The object `columns.forEach((col, i) => { obj[col] = row[i]; })` fills. */
  method BuildRecord(columns: seq<string>, row: seq<Value>) returns (obj: Object)
    ensures obj == Zip(columns, row)
  {
    obj := map[];
    var i := 0;
    while i < |columns|
      invariant 0 <= i <= |columns|
      invariant obj == Zip(columns[..i], row)
    {
      assert columns[..i + 1][..i] == columns[..i];
      obj := obj[columns[i] := At(row, i)];
      i := i + 1;
    }
    assert columns[..|columns|] == columns;
  }

  /** `rowsToObjects`: no rows when `values` is absent or empty, otherwise one
      object per value row, in order. */
  function ObjectsOf(columns: seq<string>, values: Option<seq<seq<Value>>>): (r: seq<Object>)
    ensures values.None? ==> r == []
    ensures values.Some? ==> |r| == |values.value|
    ensures values.Some? ==> forall i :: 0 <= i < |r| ==> r[i] == Zip(columns, values.value[i])
  {
    match values
    case None => []
    case Some(vs) => seq(|vs|, i requires 0 <= i < |vs| => Zip(columns, vs[i]))
  }

  method RowsToObjects(columns: seq<string>, values: Option<seq<seq<Value>>>) returns (objs: seq<Object>)
    ensures objs == ObjectsOf(columns, values)
  {
    if values.None? || |values.value| == 0 {
      return [];
    }
    var vs := values.value;
    objs := [];
    var i := 0;
    while i < |vs|
      invariant 0 <= i <= |vs|
      invariant |objs| == i
      invariant forall k :: 0 <= k < i ==> objs[k] == Zip(columns, vs[k])
    {
      var obj := BuildRecord(columns, vs[i]);
      objs := objs + [obj];
      i := i + 1;
    }
  }

  /** Each key of a row object holds the value at that column's last position,
      and a row shorter than the column list leaves the rest undefined. */
  lemma RecordAt(columns: seq<string>, row: seq<Value>, i: nat)
    requires i < |columns| && columns[i] !in columns[i + 1..]
    ensures Zip(columns, row)[columns[i]] == (if i < |row| then row[i] else Undefined)
  {
    ZipAt(columns, row, i);
  }

  /** What `all` hands over: the rows of the first result set when it has column names. */
  function AllRows(sets: seq<ResultSet>): (r: seq<Object>)
    ensures |sets| == 0 || sets[0].columns.None? ==> r == []
  {
    if |sets| > 0 && sets[0].columns.Some? then ObjectsOf(sets[0].columns.value, sets[0].values) else []
  }

  /** What `get` hands over: the first row of the first result set, or null. */
  function FirstRow(sets: seq<ResultSet>): (r: Option<Object>)
    ensures r.Some? <==> |sets| > 0 && sets[0].columns.Some? && sets[0].values.Some? && |sets[0].values.value| > 0
  {
    if |sets| > 0 && sets[0].columns.Some? && sets[0].values.Some? && |sets[0].values.value| > 0 then
      Some(Zip(sets[0].columns.value, sets[0].values.value[0]))
    else None
  }

  /** `get` yields exactly the first of the rows `all` would yield for the
      same result, and null when `all` would yield none. */
  lemma GetIsFirstOfAll(sets: seq<ResultSet>)
    ensures FirstRow(sets) == if |AllRows(sets)| > 0 then Some(AllRows(sets)[0]) else None
  {
  }

  // ---------------------------------------------------------------------------
  // The three calls

  /** What the engine did with one query: threw, or returned result sets. */
  datatype Query = QueryThrew | Answered(sets: seq<ResultSet>)

  /** `get(sql, params, callback)` */
  method Get<F>(params: Param<F>, callback: Option<F>, query: Query) returns (bound: seq<Value>, d: Delivery<F, Option<Object>>)
    ensures bound == NormalizeArgs(params, callback).bound
    ensures d == Deliver(NormalizeArgs(params, callback).callback, query.QueryThrew?, if query.Answered? then FirstRow(query.sets) else None)
  {
    var args := NormalizeArgs(params, callback);
    bound := args.bound;
    if query.QueryThrew? {
      d := Deliver(args.callback, true, None);
      return;
    }
    var res := query.sets;
    var row: Option<Object> := None;
    if |res| > 0 && res[0].columns.Some? && res[0].values.Some? && |res[0].values.value| > 0 {
      var obj := BuildRecord(res[0].columns.value, res[0].values.value[0]);
      row := Some(obj);
    }
    d := Deliver(args.callback, false, row);
  }

  /** `all(sql, params, callback)` */
  method All<F>(params: Param<F>, callback: Option<F>, query: Query) returns (bound: seq<Value>, d: Delivery<F, seq<Object>>)
    ensures bound == NormalizeArgs(params, callback).bound
    ensures d == Deliver(NormalizeArgs(params, callback).callback, query.QueryThrew?, if query.Answered? then AllRows(query.sets) else [])
  {
    var args := NormalizeArgs(params, callback);
    bound := args.bound;
    if query.QueryThrew? {
      d := Deliver(args.callback, true, []);
      return;
    }
    var res := query.sets;
    var rows: seq<Object> := [];
    if |res| > 0 && res[0].columns.Some? {
      rows := RowsToObjects(res[0].columns.value, res[0].values);
    }
    d := Deliver(args.callback, false, rows);
  }

  /** The `this` of `run`'s callback. */
  datatype Context = Context(lastID: Value, changes: Value)

  /** What the engine did with a statement: threw, or ran it. `modified` is
      `getRowsModified()` (absent when the engine lacks it); `rowid` is what
      `SELECT last_insert_rowid() AS id` returned. */
  datatype Execution = Threw | Executed(modified: Option<nat>, rowid: seq<ResultSet>)

  /** `(sql || '').trim().toUpperCase().startsWith('INSERT')` */
  predicate IsInsert(sql: string) {
    Text.StartsWith(Text.ToUpper(Text.Trim(sql)), "INSERT")
  }

  /** The first cell of the first row of the first result set, if there is a row. */
  function FirstCell(sets: seq<ResultSet>): Option<Value> {
    if |sets| > 0 && sets[0].values.Some? && |sets[0].values.value| > 0 then Some(At(sets[0].values.value[0], 0))
    else None
  }

  /** The context of a statement that ran: `changes` from the engine or 0, and
      `lastID` 0 unless the statement is an INSERT whose rowid query answered. */
  function RunContext(sql: string, modified: Option<nat>, rowid: seq<ResultSet>): (c: Context)
    ensures !IsInsert(sql) ==> c.lastID == Num(0.0)
    ensures IsInsert(sql) && FirstCell(rowid).Some? ==> c.lastID == FirstCell(rowid).value
    ensures FirstCell(rowid).None? ==> c.lastID == Num(0.0)
    ensures c.changes == Num(if modified.Some? then modified.value as real else 0.0)
  {
    Context(if IsInsert(sql) && FirstCell(rowid).Some? then FirstCell(rowid).value else Num(0.0),
            Num(if modified.Some? then modified.value as real else 0.0))
  }

  /** `run(sql, params, callback)`: the context is built field by field, and
      `lastID` is only read back for an INSERT. */
  method Run<F>(sql: string, params: Param<F>, callback: Option<F>, exec: Execution) returns (bound: seq<Value>, d: Delivery<F, Context>)
    ensures bound == NormalizeArgs(params, callback).bound
    ensures exec.Threw? ==> d == Deliver(NormalizeArgs(params, callback).callback, true, Context(Num(0.0), Num(0.0)))
    ensures exec.Executed? ==> d == Deliver(NormalizeArgs(params, callback).callback, false, RunContext(sql, exec.modified, exec.rowid))
  {
    var args := NormalizeArgs(params, callback);
    bound := args.bound;
    if exec.Threw? {
      d := Deliver(args.callback, true, Context(Num(0.0), Num(0.0)));
      return;
    }
    var ctx := Context(Num(0.0), Num(if exec.modified.Some? then exec.modified.value as real else 0.0));
    var upper := Text.ToUpper(Text.Trim(sql));
    if Text.StartsWith(upper, "INSERT") {
      var res := exec.rowid;
      if |res| > 0 && res[0].values.Some? && |res[0].values.value| > 0 {
        ctx := ctx.(lastID := At(res[0].values.value[0], 0));
      }
    }
    d := Deliver(args.callback, false, ctx);
  }

  /** After the leading white space the servers indent their SQL with, the
      upper-cased text begins with the statement's first word. */
  lemma LeadingWord(pad: string, word: string, rest: string)
    requires forall i :: 0 <= i < |pad| ==> Text.IsSpace(pad[i])
    requires |word| > 0 && !Text.IsSpace(word[0]) && !Text.IsSpace(word[|word| - 1])
    ensures Text.StartsWith(Text.ToUpper(Text.Trim(pad + word + rest)), Text.ToUpper(word))
  {
    assert pad + word + rest == pad + (word + rest);
    SkipPad(pad, word + rest);
    var t := Text.TrimEnd(word + rest);
    KeepWord(word, rest);
    UpperPrefix(t, |word|);
  }

  lemma {:induction false} SkipPad(pad: string, x: string)
    requires forall i :: 0 <= i < |pad| ==> Text.IsSpace(pad[i])
    requires |x| > 0 && !Text.IsSpace(x[0])
    ensures Text.TrimStart(pad + x) == x
  {
    if |pad| > 0 {
      assert (pad + x)[1..] == pad[1..] + x;
      SkipPad(pad[1..], x);
    }
  }

  lemma KeepWord(word: string, rest: string)
    requires |word| > 0 && !Text.IsSpace(word[|word| - 1])
    ensures |Text.TrimEnd(word + rest)| >= |word|
    ensures Text.TrimEnd(word + rest)[..|word|] == word
  {
    var s := word + rest;
    var t := Text.TrimEnd(s);
    assert s[|word| - 1] == word[|word| - 1];
    assert !Text.IsSpace(s[|word| - 1]);
    assert |word| - 1 < |t|;
    assert t == s[..|t|];
    assert t[..|word|] == s[..|word|] == word;
  }

  lemma UpperPrefix(t: string, n: nat)
    requires n <= |t|
    ensures Text.ToUpper(t)[..n] == Text.ToUpper(t[..n])
  {
  }

  /** An INSERT, in any letter case and however indented, sets `lastID`. */
  lemma InsertIsDetected(pad: string, word: string, rest: string)
    requires forall i :: 0 <= i < |pad| ==> Text.IsSpace(pad[i])
    requires Text.ToUpper(word) == "INSERT"
    ensures IsInsert(pad + word + rest)
  {
    assert |word| == 6;
    assert Text.ToUpper(word)[0] == Text.UpperChar(word[0]) == "INSERT"[0];
    assert Text.ToUpper(word)[5] == Text.UpperChar(word[5]) == "INSERT"[5];
    assert !Text.IsSpace(word[0]) && !Text.IsSpace(word[5]);
    LeadingWord(pad, word, rest);
  }

  /** A statement whose first word does not begin with an I (UPDATE, DELETE,
      SELECT, CREATE, ALTER) leaves `lastID` at 0. */
  lemma OtherStatementsAreNot(pad: string, word: string, rest: string)
    requires forall i :: 0 <= i < |pad| ==> Text.IsSpace(pad[i])
    requires |word| > 0 && !Text.IsSpace(word[0]) && !Text.IsSpace(word[|word| - 1])
    requires Text.UpperChar(word[0]) != 'I'
    ensures !IsInsert(pad + word + rest)
  {
    LeadingWord(pad, word, rest);
    var u := Text.ToUpper(Text.Trim(pad + word + rest));
    assert u[0] == Text.ToUpper(word)[0] == Text.UpperChar(word[0]);
  }
}
