/**
 * JSON values as Python's `json.load` hands them to the importer, and the
 * few built-in Python operations the importer applies to them.
 */
module PyJson {
  import opened Wrappers

  /** A decoded JSON value: dict, list, str, int, float, bool or None. */
  datatype Json =
    | JNull
    | JBool(b: bool)
    | JInt(i: int)
    | JFloat(r: real)
    | JStr(s: string)
    | JList(items: seq<Json>)
    | JDict(fields: map<string, Json>)

  /**
   * Library functions the model leaves uninterpreted:
   * `json.dumps`, Python's `int(str)` and `float(str)` (partial: `None` is the
   * ValueError they raise), the rounding the `geojson` library applies to
   * every coordinate it stores in a geometry, and the rows `csv.reader`
   * splits the text of a written GeoJSON document into.
   */
  datatype Builtins = Builtins(
    dumps: Json -> string,
    parseInt: string -> Option<int>,
    parseFloat: string -> Option<real>,
    roundCoordinate: real -> real,
    csvRowsOfDocument: Json -> seq<seq<string>>)

  /** The exceptions the feature walk can raise. */
  datatype PyError =
    | NotADict          // AttributeError: `.get` on a value that is not a dict
    | MissingKey(key: string)  // KeyError
    | NotIterable       // TypeError: iterating a number, a bool or None
    | NotSubscriptable  // TypeError: `v["key"]` on a list, str, number, bool or None
    | NotAnInteger      // ValueError / TypeError raised by `int(v)`

  /** `d.get(key)` on a dict. */
  function DictGet(fields: map<string, Json>, key: string): (r: Option<Json>)
    ensures r.Some? <==> key in fields
    ensures r.Some? ==> r.value == fields[key]
  {
    if key in fields then Some(fields[key]) else None
  }

  /** `v[key]` with a string key. */
  function Subscript(v: Json, key: string): (r: Result<Json, PyError>)
    ensures r.Ok? <==> v.JDict? && key in v.fields
    ensures r.Ok? ==> r.value == v.fields[key]
    ensures v.JDict? && key !in v.fields ==> r == Err(MissingKey(key))
  {
    match v
    case JDict(fields) => if key in fields then Ok(fields[key]) else Err(MissingKey(key))
    case _ => Err(NotSubscriptable)
  }

  /** Python's `int(x)` on a finite float: truncation toward zero. */
  function Truncate(x: real): (n: int)
    ensures 0.0 <= x ==> n as real <= x < n as real + 1.0
    ensures x < 0.0 ==> n as real - 1.0 < x <= n as real
  {
    if x >= 0.0 then x.Floor else -((-x).Floor)
  }

  /** Python's `int(v)` on a decoded JSON value. */
  function PyInt(lib: Builtins, v: Json): (r: Option<int>)
    ensures v.JInt? ==> r == Some(v.i)
    ensures v.JNull? || v.JList? || v.JDict? ==> r == None
    ensures v.JBool? ==> r == Some(if v.b then 1 else 0)
    ensures v.JFloat? ==> r == Some(Truncate(v.r))
    ensures v.JStr? ==> r == lib.parseInt(v.s)
  {
    match v
    case JInt(i) => Some(i)
    case JBool(t) => Some(if t then 1 else 0)
    case JFloat(x) => Some(Truncate(x))
    case JStr(s) => lib.parseInt(s)
    case _ => None
  }
}
