/**
 * The dynamically typed values the evaluator of frontend/emitter.ts computes
 * with, and the JavaScript operators it applies to them: truthiness, `typeof`,
 * the type-guarded `+ - * /` of a BinaryExpression, and the coercing `< > ==`
 * of a BooleanExpression. Numbers are exact reals, so NaN and the infinities
 * are not values here.
 */
module Values {
  import opened Wrappers
  import Numbers

  datatype Value =
    | Num(n: real)
    | Str(s: string)
    | Bool(b: bool)
    | Undef
    /** What a BooleanExpression with an operator other than `<`, `>`, `==` yields. */
    | Null

  /** JavaScript's ToBoolean, as `if` and `?` apply it. */
  predicate Truthy(v: Value) {
    match v
    case Num(n) => n != 0.0
    case Str(s) => s != ""
    case Bool(b) => b
    case Undef => false
    case Null => false
  }

  /** The `typeof` operator. */
  function TypeName(v: Value): (name: string)
    ensures name in {"number", "string", "boolean", "undefined", "object"}
  {
    match v
    case Num(_) => "number"
    case Str(_) => "string"
    case Bool(_) => "boolean"
    case Undef => "undefined"
    case Null => "object"
  }

  /** `undefined` or `null`: the values `x != null` rejects. */
  predicate IsNullish(v: Value) {
    v.Undef? || v.Null?
  }

  /** What a BinaryExpression's `+` accepts on either side. */
  predicate IsNumOrStr(v: Value) {
    v.Num? || v.Str?
  }

  /** JavaScript's ToString on a value `+` may join. */
  function TextOf(v: Value): string
    requires IsNumOrStr(v)
  {
    if v.Str? then v.s else Numbers.NumberText(v.n)
  }

  /** `+` of a BinaryExpression: numeric sum, or concatenation once a side is a string. */
  function Plus(a: Value, b: Value): Value {
    if a.Num? && b.Num? then Num(a.n + b.n)
    else if IsNumOrStr(a) && IsNumOrStr(b) then Str(TextOf(a) + TextOf(b))
    else Undef
  }

  function Minus(a: Value, b: Value): Value {
    if a.Num? && b.Num? then Num(a.n - b.n) else Undef
  }

  function Times(a: Value, b: Value): Value {
    if a.Num? && b.Num? then Num(a.n * b.n) else Undef
  }

  /** Division by zero, which gives an infinity or NaN in JavaScript, gives undefined here. */
  function Divide(a: Value, b: Value): Value {
    if a.Num? && b.Num? && b.n != 0.0 then Num(a.n / b.n) else Undef
  }

  /** The BinaryExpression switch: an operator outside `+ - * /` yields undefined. */
  function Arith(op: string, a: Value, b: Value): Value {
    if op == "+" then Plus(a, b)
    else if op == "-" then Minus(a, b)
    else if op == "*" then Times(a, b)
    else if op == "/" then Divide(a, b)
    else Undef
  }

  /** JavaScript's ToNumber; None stands for NaN. */
  function ToNumber(v: Value): Option<real> {
    match v
    case Num(n) => Some(n)
    case Str(s) => Numbers.NumeralValue(s)
    case Bool(b) => Some(if b then 1.0 else 0.0)
    case Undef => None
    case Null => Some(0.0)
  }

  /** Lexicographic order of strings, a proper prefix first. */
  predicate StringLess(a: string, b: string) {
    if b == [] then false
    else if a == [] then true
    else if a[0] != b[0] then a[0] < b[0]
    else StringLess(a[1..], b[1..])
  }

  /**
   * `a < b`: two strings compare as text; otherwise both sides are coerced
   * to numbers, and NaN on either side makes the comparison false.
   */
  predicate Less(a: Value, b: Value) {
    if a.Str? && b.Str? then StringLess(a.s, b.s)
    else
      var x, y := ToNumber(a), ToNumber(b);
      x.Some? && y.Some? && x.value < y.value
  }

  /** `a > b`, which JavaScript evaluates as `b < a`. */
  predicate Greater(a: Value, b: Value) {
    Less(b, a)
  }

  function BoolRank(v: Value): nat {
    if v.Bool? then 1 else 0
  }

  /**
   * Loose equality `a == b`: values of one type compare strictly, `undefined`
   * and `null` equal each other and nothing else, a string meets a number as
   * a number, and a boolean is first turned into a number.
   */
  predicate LooseEq(a: Value, b: Value)
    decreases BoolRank(a) + BoolRank(b)
  {
    if TypeName(a) == TypeName(b) then a == b
    else if IsNullish(a) || IsNullish(b) then IsNullish(a) && IsNullish(b)
    else if a.Num? && b.Str? then ToNumber(b) == Some(a.n)
    else if a.Str? && b.Num? then ToNumber(a) == Some(b.n)
    else if a.Bool? then LooseEq(Num(ToNumber(a).value), b)
    else if b.Bool? then LooseEq(a, Num(ToNumber(b).value))
    else false
  }

  /** The BooleanExpression switch: an operator outside `> < ==` yields null. */
  function Compare(op: string, a: Value, b: Value): Value {
    if op == ">" then Bool(Greater(a, b))
    else if op == "<" then Bool(Less(a, b))
    else if op == "==" then Bool(LooseEq(a, b))
    else Null
  }
}
