/**
 * JavaScript values as an inductive datatype, with the runtime classifiers
 * `isArray`, `isObject` and `isPrimitive` (src/utils/helpers) and JavaScript
 * truthiness.
 */
module JsValues {

  /** A JavaScript number: a finite value, an infinity, or NaN. */
  datatype JsNumber = Finite(x: real) | Infinity(negative: bool) | NaN

  /**
   * Every JavaScript value the clone routines can meet. Symbols and functions
   * carry an identity only; a Set or Map keeps its contents, which the clone
   * routines never look into. Plain objects and class instances are both
   * `Object`: their string-keyed own fields.
   */
  datatype Value =
    | Number(num: JsNumber)
    | BigInt(big: int)
    | Boolean(boolean: bool)
    | Symbol(symbolId: nat)
    | String(str: string)
    | Undefined
    | Null
    | Array(items: seq<Value>)
    | Object(fields: map<string, Value>)
    | Set(members: seq<Value>)
    | Map(entries: seq<(Value, Value)>)
    | Function(functionId: nat)

  /** The string the JavaScript `typeof` operator yields for a value. */
  function TypeOf(v: Value): string
  {
    match v
    case Number(_) => "number"
    case BigInt(_) => "bigint"
    case Boolean(_) => "boolean"
    case Symbol(_) => "symbol"
    case String(_) => "string"
    case Undefined => "undefined"
    case Function(_) => "function"
    case _ => "object"
  }

  /** `value instanceof Array`. */
  function IsArray(v: Value): (r: bool)
  {
    v.Array?
  }

  /**
   * A non-null value of `typeof` "object" that is neither an Array, a Set
   * nor a Map: exactly the plain objects and class instances.
   */
  function IsObject(v: Value): (r: bool)
    ensures r <==> v.Object?
  {
    v != Null && TypeOf(v) == "object" && !v.Array? && !v.Set? && !v.Map?
  }

  /**
   * `typeof` is one of the five primitive type names or "undefined", or the
   * value is `null`: everything except arrays, objects, Sets, Maps and
   * functions.
   */
  function IsPrimitive(v: Value): (r: bool)
    ensures r <==> !(v.Array? || v.Object? || v.Set? || v.Map? || v.Function?)
  {
    var t := TypeOf(v);
    t == "number" || t == "bigint" || t == "boolean" || t == "symbol"
    || t == "string" || t == "undefined" || v == Null
  }

  /** The four classes of the clone dispatch, in the order they are tested. */
  datatype Kind = ArrayKind | ObjectKind | PrimitiveKind | Unsupported

  /**
   * The dispatch shared by `deepSimpleClone`, `cloneArray` and `cloneObject`:
   * an array test first, then the object test, then the primitive test.
   */
  function Classify(v: Value): (k: Kind)
    ensures k == ArrayKind <==> IsArray(v)
    ensures k == ObjectKind <==> IsObject(v)
    ensures k == PrimitiveKind <==> IsPrimitive(v)
    ensures k == Unsupported <==> v.Set? || v.Map? || v.Function?
  {
    if IsArray(v) then ArrayKind
    else if IsObject(v) then ObjectKind
    else if IsPrimitive(v) then PrimitiveKind
    else Unsupported
  }

  /** At most one of the three classifiers holds of any value. */
  lemma ClassifiersDisjoint(v: Value)
    ensures !(IsArray(v) && IsObject(v))
    ensures !(IsArray(v) && IsPrimitive(v))
    ensures !(IsObject(v) && IsPrimitive(v))
  {
  }

  /** JavaScript's ToBoolean: the value an `if (v)` test sees. */
  function Truthy(v: Value): (r: bool)
    ensures !IsPrimitive(v) ==> r
    ensures v.Undefined? || v.Null? ==> !r
    ensures v.Symbol? ==> r
    ensures !r <==> v == Undefined || v == Null || v == Boolean(false) || v == String("")
                    || v == BigInt(0) || v == Number(NaN) || (v.Number? && v.num.Finite? && v.num.x == 0.0)
  {
    match v
    case Number(n) => !(n.NaN? || (n.Finite? && n.x == 0.0))
    case BigInt(i) => i != 0
    case Boolean(b) => b
    case String(s) => s != ""
    case Undefined => false
    case Null => false
    case _ => true
  }
}
