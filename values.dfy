/**
 * JavaScript values as they cross the application's boundaries: the result
 * of `JSON.parse`, HTTP request and response bodies, and the fields of
 * stored documents.
 */
module Values {
  import opened Wrappers
  import opened Text

  /** A JavaScript value. Numbers are integers; `Stamp` is a document-store
      timestamp in milliseconds, which JSON never produces. */
  datatype Value =
    | Null
    | Bool(b: bool)
    | Num(n: int)
    | Str(s: string)
    | Arr(items: seq<Value>)
    | Obj(fields: map<string, Value>)
    | Stamp(millis: int)

  /** A JSON object as a map from keys to values. */
  type Record = map<string, Value>

  /** JavaScript truthiness: `null`, `false`, `0` and `''` are falsy. */
  predicate Truthy(v: Value) {
    match v
    case Null => false
    case Bool(b) => b
    case Num(n) => n != 0
    case Str(s) => s != ""
    case _ => true
  }

  /** `obj[key]`, with `None` for `undefined`. */
  function Get(obj: Record, key: string): Option<Value> {
    if key in obj then Some(obj[key]) else None
  }

  /** `obj[key]` is present and truthy. */
  predicate HasTruthy(obj: Record, key: string) {
    key in obj && Truthy(obj[key])
  }

  /** The fields an object spread `{...v}` copies from a value parsed from
      JSON: an object's own fields, nothing from anything else. */
  function SpreadFields(v: Value): Record {
    if v.Obj? then v.fields else map[]
  }

  /** A list of strings as a JavaScript array. */
  function Strs(xs: seq<string>): (r: Value)
    ensures r.Arr? && |r.items| == |xs|
    ensures forall i :: 0 <= i < |xs| ==> r.items[i] == Str(xs[i])
  {
    Arr(seq(|xs|, i requires 0 <= i < |xs| => Str(xs[i])))
  }

  /** JavaScript's conversion to text, as template literals and `join` use it. */
  function ToText(v: Value): string
    decreases v, 0
  {
    match v
    case Null => "null"
    case Bool(b) => if b then "true" else "false"
    case Num(n) => IntText(n)
    case Str(s) => s
    case Arr(items) =>
      Join(seq(|items|, i requires 0 <= i < |items| => ElementText(items[i])), ",")
    case Obj(_) => "[object Object]"
    case Stamp(ms) => IntText(ms)
  }

  /** How `Array.prototype.join` renders one element: `null` as empty text. */
  function ElementText(v: Value): string
    decreases v, 1
  {
    if v.Null? then "" else ToText(v)
  }

  /** `items.join(sep)` for an array of arbitrary values. */
  function JoinValues(items: seq<Value>, sep: string): string {
    Join(seq(|items|, i requires 0 <= i < |items| => ElementText(items[i])), sep)
  }

  /** Joining an array of strings is joining the strings themselves. */
  lemma JoinStrs(xs: seq<string>, sep: string)
    ensures JoinValues(Strs(xs).items, sep) == Join(xs, sep)
  {
    var items := Strs(xs).items;
    forall i | 0 <= i < |xs|
      ensures ElementText(items[i]) == xs[i]
    {
    }
    assert seq(|items|, i requires 0 <= i < |items| => ElementText(items[i])) == xs;
  }
}
