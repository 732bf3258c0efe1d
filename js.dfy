/** The JavaScript values and errors the model needs. */
module Js {
  import opened Text

  /** A scalar JavaScript value. Numbers are integers in this model. Two values are strictly
      equal (`===`) exactly when they are equal as Dafny values. */
  datatype Value = Str(s: string) | Num(n: int) | Bool(b: bool) | Null | Undefined

  /** JavaScript truthiness: `""`, `0`, `false`, `null` and `undefined` are falsy. */
  predicate Truthy(v: Value)
    ensures Truthy(v) <==> v !in {Str(""), Num(0), Bool(false), Null, Undefined}
  {
    match v
    case Str(s) => s != ""
    case Num(n) => n != 0
    case Bool(b) => b
    case Null => false
    case Undefined => false
  }

  /** The text a value becomes inside a template literal `${...}`. */
  function TemplateString(v: Value): (r: string)
    ensures v.Str? ==> r == v.s
    ensures v.Num? ==> IsIntText(r) && ParseInt(r) == v.n
    ensures v.Bool? ==> r == (if v.b then "true" else "false")
    ensures v.Null? ==> r == "null"
    ensures v.Undefined? ==> r == "undefined"
  {
    match v
    case Str(s) => s
    case Num(n) => ParseIntToString(n); IntToString(n)
    case Bool(b) => if b then "true" else "false"
    case Null => "null"
    case Undefined => "undefined"
  }

  /** The relational operator `>` on numbers and `undefined`: `undefined` converts to NaN, and
      every comparison with NaN is false. */
  predicate Greater(a: Value, b: Value)
    requires (a.Num? || a.Undefined?) && (b.Num? || b.Undefined?)
    ensures Greater(a, b) ==> !a.Undefined? && !b.Undefined?
  {
    a.Num? && b.Num? && a.n > b.n
  }

  /** The errors of ../expressError thrown by the core, and the TypeError a JavaScript
      engine throws when a property of `undefined` is read. */
  datatype ExpressError =
    | BadRequestError(message: string)
    | NotFoundError(message: string)
    | UnauthorizedError
    | TypeError(message: string)
}
