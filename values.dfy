/**
 The JavaScript values that flow through the server and the client: request
 bodies, query parameters, database cells and parsed JSON responses, with the
 truthiness rules that `||`, `!` and `!= null` apply to them.
 */
module JsValues {

  datatype Option<+T> = None | Some(value: T)

  /** A JavaScript value as far as the model needs one. `Num` stands for a finite
      number; `Obj` for any object or array (always truthy; its contents are not
      looked at where it appears). */
  datatype Value =
    | Undefined
    | Null
    | Bool(b: bool)
    | Num(n: real)
    | Str(s: string)
    | Obj

  /** `!!v` */
  predicate Truthy(v: Value) {
    match v
    case Undefined => false
    case Null => false
    case Bool(b) => b
    case Num(n) => n != 0.0
    case Str(s) => s != ""
    case Obj => true
  }

  /** `v == null` (loose equality): true exactly for null and undefined. */
  predicate IsNullish(v: Value) {
    v.Null? || v.Undefined?
  }

  /** `v || w` */
  function Or(v: Value, w: Value): (r: Value)
    ensures Truthy(v) ==> r == v
    ensures !Truthy(v) ==> r == w
  {
    if Truthy(v) then v else w
  }

  /** A plain object seen as a dictionary, as request bodies and rows are. */
  type Object = map<string, Value>

  /** `obj[k]`: a missing key reads as undefined. */
  function Get(obj: Object, k: string): Value {
    if k in obj then obj[k] else Undefined
  }

  /** `row[i]`: an index past the end reads as undefined. */
  function At(row: seq<Value>, i: nat): Value {
    if i < |row| then row[i] else Undefined
  }

  /** The object built by `cols.forEach((c, i) => { obj[c] = row[i]; })` on `{}`:
      one key per column name, a repeated name keeping its last value. */
  function Zip(cols: seq<string>, row: seq<Value>): (r: Object)
    ensures r.Keys == set c | c in cols
  {
    if |cols| == 0 then map[]
    else Zip(cols[..|cols| - 1], row)[cols[|cols| - 1] := At(row, |cols| - 1)]
  }

  /** The value under a column name is the one at its last position. */
  lemma {:induction false} ZipAt(cols: seq<string>, row: seq<Value>, i: nat)
    requires i < |cols| && cols[i] !in cols[i + 1..]
    ensures Zip(cols, row)[cols[i]] == At(row, i)
  {
    var n := |cols|;
    if i < n - 1 {
      assert cols[n - 1] in cols[i + 1..];
      assert cols[..n - 1][i + 1..] == cols[i + 1..n - 1];
      ZipAt(cols[..n - 1], row, i);
    }
  }

  /** When every position of a name holds the same value, that is the value. */
  lemma {:induction false} ZipConsistent(cols: seq<string>, row: seq<Value>, k: string, v: Value)
    requires k in cols
    requires forall i :: 0 <= i < |cols| && cols[i] == k ==> At(row, i) == v
    ensures Zip(cols, row)[k] == v
  {
    var n := |cols|;
    if cols[n - 1] != k {
      assert k in cols[..n - 1] by {
        var i :| 0 <= i < n && cols[i] == k;
        assert cols[..n - 1][i] == k;
      }
      ZipConsistent(cols[..n - 1], row, k, v);
    }
  }
}
