/**
 The untyped values a JSON field may hold, distinguished only as far as
 `=== null`, `=== undefined`, `typeof … === 'string'` and `Array.isArray`
 distinguish them.
 */
module JsValues {
  import opened Seqs

  /** `Other` is any remaining value (number, boolean, object), carrying the text `String(v)` gives it. */
  datatype JsValue = Undefined | Null | Str(text: string) | Arr(elements: seq<JsValue>) | Other(shown: string)

  /** The text `Array.prototype.join` writes for one element: null and undefined write nothing. */
  function JoinText(v: JsValue): string
    decreases v
  {
    match v
    case Undefined => ""
    case Null => ""
    case Str(t) => t
    case Other(t) => t
    case Arr(vs) => JoinWith(seq(|vs|, i requires 0 <= i < |vs| => JoinText(vs[i])), ",")
  }

  /** A string sequence as an array of string values. */
  function StrArray(xs: seq<string>): (v: JsValue)
    ensures v.Arr? && |v.elements| == |xs|
    ensures forall i :: 0 <= i < |xs| ==> v.elements[i] == Str(xs[i])
  {
    Arr(seq(|xs|, i requires 0 <= i < |xs| => Str(xs[i])))
  }
}
