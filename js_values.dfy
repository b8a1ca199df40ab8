/**
 * The JavaScript values the PUT handler of app.js inspects: whatever `JSON.parse`
 * returns, plus `undefined` for a property the parsed object does not have.
 */
module JsValues {

  /** A JavaScript value. JSON never yields NaN, so a number is a plain real. */
  datatype Value =
    | Undefined
    | Null
    | Bool(b: bool)
    | Num(n: real)
    | Str(s: string)
    | Arr(items: seq<Value>)
    | Obj(props: map<string, Value>)

  /** JavaScript truthiness (ToBoolean): `undefined`, `null`, `false`, `0` and `""` are falsy. */
  predicate Truthy(v: Value): (t: bool)
    // exactly the five falsy values of JSON data
    ensures !t <==> v in {Undefined, Null, Bool(false), Num(0.0), Str("")}
  {
    match v
    case Undefined => false
    case Null => false
    case Bool(b) => b
    case Num(n) => n != 0.0
    case Str(s) => s != ""
    case Arr(_) => true
    case Obj(_) => true
  }

  /** The properties of the request object that the handler reads. */
  datatype Field = Type | Tex | Inline | Em | Ex | Width

  function Name(f: Field): string {
    match f
    case Type => "type"
    case Tex => "tex"
    case Inline => "inline"
    case Em => "em"
    case Ex => "ex"
    case Width => "width"
  }

  /** A property read may throw: reading any property of `null` or `undefined` is a TypeError. */
  predicate CanReadProperties(v: Value) {
    !v.Undefined? && !v.Null?
  }

  /**
   * `v.f` for a value whose properties can be read. Only an object's own properties
   * matter: none of the six names is defined on a prototype, so a string, number,
   * boolean or array yields `undefined`, as does an object without the key.
   */
  function Get(v: Value, f: Field): (r: Value)
    requires CanReadProperties(v)
    ensures r != Undefined <==> v.Obj? && Name(f) in v.props && v.props[Name(f)] != Undefined
    ensures v.Obj? && Name(f) in v.props ==> r == v.props[Name(f)]
  {
    if v.Obj? && Name(f) in v.props then v.props[Name(f)] else Undefined
  }
}
