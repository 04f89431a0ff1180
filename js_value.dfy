/** The slice of JavaScript's value semantics that the style rules and the
    Input component depend on: truthiness, the `||` operator, property
    access on a props object, and `String(v)` as used by a regular-expression
    test or a computed property key. Numbers are integers here: every number
    the modelled code branches on is an integer. */
module JsValue {

  datatype Value =
    | Undefined
    | Null
    | Bool(b: bool)
    | Num(n: int)
    | Str(s: string)
    | List(items: seq<Value>)
    | Obj(fields: map<string, Value>)
    | Func(source: string)   // a function value, known only by its source text

  datatype Option<T> = None | Some(value: T)

  /** A props object, and the style object a rule returns. */
  type Props = map<string, Value>
  type Style = map<string, Value>

  /** JavaScript truthiness: `undefined`, `null`, `false`, `0` and `""` are
      falsy; arrays, objects and functions are truthy even when empty. */
  predicate Truthy(v: Value) {
    match v
    case Undefined => false
    case Null => false
    case Bool(b) => b
    case Num(n) => n != 0
    case Str(s) => s != ""
    case List(_) => true
    case Obj(_) => true
    case Func(_) => true
  }

  /** `a || b`: the first operand when it is truthy, else the second. */
  function Or(a: Value, b: Value): (r: Value)
    ensures Truthy(r) <==> Truthy(a) || Truthy(b)
    ensures r == a || r == b
    ensures !Truthy(a) ==> r == b
    ensures Truthy(a) ==> r == a
  {
    if Truthy(a) then a else b
  }

  /** `props.key`: a missing own property reads as `undefined`. */
  function Get(props: Props, key: string): (r: Value)
    ensures key !in props ==> r == Undefined
    ensures key in props ==> r == props[key]
  {
    if key in props then props[key] else Undefined
  }

  /** `xs[i]` on an array: reading past either end gives `undefined`. */
  function At(xs: seq<Value>, i: int): (r: Value)
    ensures 0 <= i < |xs| ==> r == xs[i]
    ensures !(0 <= i < |xs|) ==> r == Undefined
  {
    if 0 <= i < |xs| then xs[i] else Undefined
  }

  function DigitChar(d: nat): char
    requires d < 10
  {
    "0123456789"[d]
  }

  function NatToString(n: nat): (r: string)
    ensures |r| > 0
    ensures forall i :: 0 <= i < |r| ==> '0' <= r[i] <= '9'
  {
    if n < 10 then [DigitChar(n)] else NatToString(n / 10) + [DigitChar(n % 10)]
  }

  /** The decimal text of an integer, as `String(n)` writes it. */
  function IntToString(n: int): (r: string)
    ensures |r| > 0
    ensures forall i :: 0 <= i < |r| ==> '0' <= r[i] <= '9' || r[i] == '-'
  {
    if n < 0 then "-" + NatToString(-n) else NatToString(n)
  }

  /** `String(v)`. An array joins its elements with commas, writing
      `undefined` and `null` elements as empty text; a function gives its
      source text; a plain object gives "[object Object]". */
  function ToStr(v: Value): (r: string)
    ensures v.Str? ==> r == v.s
    decreases v, 1
  {
    match v
    case Undefined => "undefined"
    case Null => "null"
    case Bool(b) => if b then "true" else "false"
    case Num(n) => IntToString(n)
    case Str(s) => s
    case List(items) => Join(items)
    case Obj(_) => "[object Object]"
    case Func(source) => source
  }

  /** `items.join(",")`. */
  function Join(items: seq<Value>): string
    decreases items, 0
  {
    if items == [] then ""
    else
      var head := if items[0].Undefined? || items[0].Null? then "" else ToStr(items[0]);
      if |items| == 1 then head else head + "," + Join(items[1..])
  }
}
