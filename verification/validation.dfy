/** `validatePermissionArray` and `coerceStringArray`. */
module Validation {
  import opened Seqs
  import opened JsValues

  /** `true`, or the message the field shows. */
  datatype ValidationResult = Valid | Invalid(message: string)

  const NotArrayMessage: string := "Permissions must be an array of strings."
  const InvalidPrefix: string := "Invalid permissions found: "

  /** An element passes when it is a string on the allow-list. */
  predicate Allowed(v: JsValue, allowed: seq<string>)
  {
    v.Str? && v.text in allowed
  }

  /** The elements that fail, in value order. */
  function Offending(vs: seq<JsValue>, allowed: seq<string>): (r: seq<JsValue>)
    ensures |r| <= |vs|
    ensures forall v :: v in r <==> v in vs && !Allowed(v, allowed)
    ensures |r| == 0 <==> forall i :: 0 <= i < |vs| ==> Allowed(vs[i], allowed)
  {
    var r := Filter(v => !Allowed(v, allowed), vs);
    assert forall i :: 0 <= i < |vs| && !Allowed(vs[i], allowed) ==> vs[i] in r;
    assert |r| != 0 ==> r[0] in vs;
    r
  }

  /**
   The validator: absent values pass, non-arrays fail with a fixed message, and
   an array passes exactly when every element is an allowed string; otherwise
   the message lists the failing elements after a fixed prefix.
   */
  function ValidatePermissionArray(value: JsValue, allowed: seq<string>): (r: ValidationResult)
    ensures value.Null? || value.Undefined? ==> r == Valid
    ensures value.Str? || value.Other? ==> r == Invalid(NotArrayMessage)
    ensures value.Arr? ==>
              (r == Valid <==> forall i :: 0 <= i < |value.elements| ==> Allowed(value.elements[i], allowed))
    ensures value.Arr? && r.Invalid? ==>
              |InvalidPrefix| <= |r.message| && r.message[..|InvalidPrefix|] == InvalidPrefix
  {
    if value.Null? || value.Undefined? then Valid
    else if !value.Arr? then Invalid(NotArrayMessage)
    else
      var invalid := Offending(value.elements, allowed);
      if |invalid| > 0 then
        Invalid(InvalidPrefix + JoinWith(seq(|invalid|, i requires 0 <= i < |invalid| => JoinText(invalid[i])), ", "))
      else Valid
  }

  lemma OccursAfter(needle: string, prefix: string, rest: string)
    requires Occurs(needle, rest)
    ensures Occurs(needle, prefix + rest)
  {
    var i: nat :| i <= |rest| && OccursAt(needle, rest, i);
    assert (prefix + rest)[|prefix| + i..|prefix| + i + |needle|] == rest[i..i + |needle|];
    assert OccursAt(needle, prefix + rest, |prefix| + i);
  }

  /** A string that is not allowed is rejected, and the message names it. */
  lemma {:induction false} MessageNamesOffender(vs: seq<JsValue>, allowed: seq<string>, k: nat)
    requires k < |vs| && vs[k].Str? && vs[k].text !in allowed
    ensures ValidatePermissionArray(Arr(vs), allowed).Invalid?
    ensures Occurs(vs[k].text, ValidatePermissionArray(Arr(vs), allowed).message)
  {
    var invalid := Offending(vs, allowed);
    assert vs[k] in invalid;
    var p :| 0 <= p < |invalid| && invalid[p] == vs[k];
    var texts := seq(|invalid|, i requires 0 <= i < |invalid| => JoinText(invalid[i]));
    assert texts[p] == vs[k].text;
    JoinedPartOccurs(texts, ", ", p);
    OccursAfter(vs[k].text, InvalidPrefix, JoinWith(texts, ", "));
  }

  /** `typeof v === 'string'`. */
  predicate IsString(v: JsValue)
  {
    v.Str?
  }

  /**
   The string elements of `vs`, in order and with every copy: read as values,
   they are exactly what filtering `vs` for strings keeps.
   */
  function StringElements(vs: seq<JsValue>): (r: seq<string>)
    ensures StrArray(r).elements == Filter(IsString, vs)
    ensures forall x :: x in r <==> Str(x) in vs
  {
    if |vs| == 0 then []
    else
      var rest := StringElements(vs[1..]);
      if vs[0].Str? then
        assert StrArray([vs[0].text] + rest).elements == [vs[0]] + StrArray(rest).elements;
        [vs[0].text] + rest
      else rest
  }

  /**
   `coerceStringArray`: non-arrays become empty; an array keeps its string
   elements, in order and with every copy.
   */
  function CoerceStringArray(value: JsValue): (r: seq<string>)
    ensures !value.Arr? ==> r == []
    ensures value.Arr? ==> StrArray(r).elements == Filter(IsString, value.elements)
    ensures forall x :: x in r <==> value.Arr? && Str(x) in value.elements
  {
    if !value.Arr? then [] else StringElements(value.elements)
  }

  /** An array of strings coerces back to exactly those strings. */
  lemma {:induction false} CoerceStrArray(xs: seq<string>)
    ensures CoerceStringArray(StrArray(xs)) == xs
    decreases |xs|
  {
    if |xs| != 0 {
      CoerceStrArray(xs[1..]);
      assert StrArray(xs).elements[1..] == StrArray(xs[1..]).elements;
    }
  }

  /** Coercing is idempotent. */
  lemma CoerceIdempotent(value: JsValue)
    ensures CoerceStringArray(StrArray(CoerceStringArray(value))) == CoerceStringArray(value)
  {
    CoerceStrArray(CoerceStringArray(value));
  }

  /** An array of strings passes exactly when each string is on the allow-list. */
  lemma ValidateStrings(xs: seq<string>, allowed: seq<string>)
    ensures ValidatePermissionArray(StrArray(xs), allowed) == Valid
            <==> forall i :: 0 <= i < |xs| ==> xs[i] in allowed
  {
    var v := StrArray(xs);
    assert forall i :: 0 <= i < |xs| ==> (Allowed(v.elements[i], allowed) <==> xs[i] in allowed);
  }
}
