/**
 Dynamic JavaScript values and records as the marketplace's data layer sees them.

 The context code builds its rows with object spreads (`{ ...a, k: v }`) and
 reads them with optional chaining, so a row is a finite map from column name
 to value. A missing key reads as `Null`: JavaScript's `undefined` and `null`
 are both falsy and both compare unequal to every id, so truthiness tests,
 `||` defaults and id matches treat them alike. They differ in a template
 literal, where `undefined` renders as "undefined"; `Render` gives "null",
 which matters only for a signed-in user without an id; the auth service
 always gives its users one.
 */
module Values {
  import Text

  datatype Option<+T> = None | Some(value: T)

  /** A JavaScript value as stored in a row or shown on a page. */
  datatype Value =
    | Null
    | Bool(b: bool)
    | Num(n: int)
    | Str(s: string)
    | File(name: string)               // a browser `File` picked in a form
    | Obj(fields: map<string, Value>)  // a nested object such as `user_metadata`

  type Row = map<string, Value>

  /** `row.key`, with a missing key reading as null. */
  function Get(row: Row, key: string): (v: Value)
    ensures key !in row ==> v == Null
    ensures key in row ==> v == row[key]
  {
    if key in row then row[key] else Null
  }

  /** JavaScript truthiness (`if (v)`, `!v`). */
  predicate Truthy(v: Value) {
    match v
    case Null => false
    case Bool(b) => b
    case Num(n) => n != 0
    case Str(s) => s != ""
    case File(_) => true
    case Obj(_) => true
  }

  /** `a || b`: the first operand when it is truthy, else the second. */
  function Or(a: Value, b: Value): (r: Value)
    ensures Truthy(a) ==> r == a
    ensures !Truthy(a) ==> r == b
  {
    if Truthy(a) then a else b
  }

  /** `v || null`, the normalisation the booking snapshot applies. */
  function OrNull(v: Value): (r: Value)
    ensures Truthy(r) <==> Truthy(v)
    ensures r == Null || r == v
  {
    Or(v, Null)
  }

  /** The fields of a nested object, or none when the value is not an object
      (spreading `null` or `undefined` contributes no keys). */
  function Fields(v: Value): map<string, Value> {
    match v
    case Obj(m) => m
    case _ => map[]
  }

  /** `${v}` in a template literal. */
  function Render(v: Value): string {
    match v
    case Null => "null"
    case Bool(b) => if b then "true" else "false"
    case Num(n) => Text.IntToString(n)
    case Str(s) => s
    case File(_) => "[object File]"
    case Obj(_) => "[object Object]"
  }

  /** `file.name` on a form's file value; anything but a `File` has no name. */
  function FileName(v: Value): string {
    if v.File? then v.name else "undefined"
  }

  /** The `{ data, error }` shape every context operation returns. */
  datatype Response<T> = Response(data: Option<T>, error: Option<string>)
  {
    predicate Failed() { error.Some? }
  }

  function Success<T>(d: T): (r: Response<T>)
    ensures !r.Failed() && r.data == Some(d)
  {
    Response(Some(d), None)
  }

  function Failure<T>(message: string): (r: Response<T>)
    ensures r.Failed() && r.error == Some(message) && r.data == None
  {
    Response(None, Some(message))
  }
}
