/** The JavaScript values the track pipeline handles, with the three pieces of
    JavaScript semantics its code relies on: loose equality (`==`, `!=`),
    truthiness (`if (x)`, `!x`) and conversion to a string (`'*' + x`). */
module JsValues {

  /** What `String(o)` gives for a plain object. */
  const ObjectText: string := "[object Object]"

  datatype JsVal =
    | Undefined
    | Null
    | Str(s: string)
      /** A plain object, as xml2js builds one for an element that has
          attributes or child elements. Every such object comes from its own
          parse, so two of them are never the same object. */
    | Obj

  /** `v == null` in JavaScript. */
  predicate IsNullish(v: JsVal) {
    v.Undefined? || v.Null?
  }

  /** The abstract equality `a == b` (section 7.2.15 of ECMA-262) on these
      values: null and undefined equal each other and nothing else, strings
      compare by content, an object compared with a string is first turned
      into its text, and two distinct objects are never equal. */
  predicate LooseEq(a: JsVal, b: JsVal)
    ensures IsNullish(a) ==> (LooseEq(a, b) <==> IsNullish(b))
    ensures IsNullish(b) ==> (LooseEq(a, b) <==> IsNullish(a))
    ensures a.Str? && b.Str? ==> (LooseEq(a, b) <==> a == b)
  {
    match (a, b)
    case (Str(x), Str(y)) => x == y
    case (Str(x), Obj) => x == ObjectText
    case (Obj, Str(y)) => y == ObjectText
    case (Obj, Obj) => false
    case _ => IsNullish(a) && IsNullish(b)
  }

  /** `!!v`: the empty string, null and undefined are falsy. */
  predicate Truthy(v: JsVal) {
    match v
    case Str(s) => s != ""
    case Obj => true
    case _ => false
  }

  /** The text string concatenation produces for `v`. */
  function ToStr(v: JsVal): string {
    match v
    case Undefined => "undefined"
    case Null => "null"
    case Str(s) => s
    case Obj => ObjectText
  }
}
