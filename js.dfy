/** The slice of JavaScript's value semantics that the adapter's handlers
    depend on: truthiness, `typeof`, property reads, `||`, and the
    conversion of a message text to a string. */
module Js {
  import opened JsString

  /** A plain JavaScript object, given by its own properties. Objects are
      references: `delete o.key` changes the object for every holder. */
  class JsObject {
    var props: map<string, Value>

    constructor (props: map<string, Value>)
      ensures this.props == props
    {
      this.props := props;
    }
  }

  /** JavaScript values. Numbers are integers here: NaN, infinities and
      fractions are not modelled. Functions and symbols do not occur in
      values that arrive over the message bus. */
  datatype Value =
    | Undefined
    | Null
    | Bool(b: bool)
    | Num(n: int)
    | Str(s: string)
    | Obj(o: JsObject)

  /** How a handler finished: by returning a value or by an uncaught TypeError. */
  datatype Completion = Return(value: Value) | TypeError

  /** ToBoolean: what `if (v)` and `!v` test. */
  predicate Truthy(v: Value) {
    match v
    case Undefined => false
    case Null => false
    case Bool(b) => b
    case Num(n) => n != 0
    case Str(s) => s != ""
    case Obj(_) => true
  }

  /** The `typeof` operator; note that `typeof null` is "object". */
  function TypeOf(v: Value): (t: string)
    ensures t == "object" <==> v.Null? || v.Obj?
    ensures t == "undefined" <==> v.Undefined?
  {
    match v
    case Undefined => "undefined"
    case Null => "object"
    case Bool(_) => "boolean"
    case Num(_) => "number"
    case Str(_) => "string"
    case Obj(_) => "object"
  }

  /** The objects a value refers to directly. */
  function Footprint(v: Value): set<JsObject> {
    if v.Obj? then {v.o} else {}
  }

  /** `v.key`: a missing property, and any property of a primitive that
      matters here, reads as undefined. On null or undefined JavaScript
      throws instead; the handlers only read properties of values they have
      checked to be truthy, and the null state of `stateChange` is handled
      as a throw of its own. */
  function Prop(v: Value, key: string): (r: Value)
    reads Footprint(v)
    ensures r != Undefined ==> v.Obj? && key in v.o.props && r == v.o.props[key]
    ensures v.Obj? && key in v.o.props ==> r == v.o.props[key]
  {
    match v
    case Obj(o) => if key in o.props then o.props[key] else Undefined
    case _ => Undefined
  }

  /** JavaScript's `a || b`: the first operand when it is truthy, else the second. */
  function Or(a: Value, b: Value): (r: Value)
    ensures Truthy(r) <==> Truthy(a) || Truthy(b)
    ensures Truthy(a) ==> r == a
    ensures !Truthy(a) ==> r == b
  {
    if Truthy(a) then a else b
  }

  /** `if (text !== undefined && text !== null && typeof text !== 'object')
      text = text.toString();` -- every primitive becomes a string, the rest
      is kept. */
  function ToStringValue(v: Value): (r: Value)
    ensures v.Undefined? || TypeOf(v) == "object" ==> r == v
    ensures !v.Undefined? && TypeOf(v) != "object" ==> r.Str?
    ensures v.Str? ==> r == v
  {
    match v
    case Bool(b) => Str(if b then "true" else "false")
    case Num(n) => Str(NumberToString(n))
    case _ => v
  }

  /** A converted number reads back as the same number, a converted
      boolean is "true" or "false". */
  lemma ToStringValuePrimitives(v: Value)
    ensures v.Bool? ==> ToStringValue(v) == Str(if v.b then "true" else "false")
    ensures v.Num? ==> ToStringValue(v).Str? && IsCanonicalNumeral(ToStringValue(v).s)
    ensures v.Num? ==> (ToStringValue(v).s[0] == '-' <==> v.n < 0)
    ensures v.Num? ==> IsNumeral(ToStringValue(v).s) && ParseNumeral(ToStringValue(v).s) == v.n
  {
    if v.Num? {
      NumberToStringRoundTrip(v.n);
    }
  }
}
