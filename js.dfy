/**
 The fragment of JavaScript's value semantics that the file helpers rely on:
 the values they produce, truthiness, `||`, `+` on strings and `undefined`,
 `s[i]`, `s.substr(start)` and `s.toLowerCase()` restricted to ASCII.
 */
module Js {

  /** The JavaScript values the modelled code can produce: `undefined`,
      `null`, the number `NaN` (what `undefined + undefined` gives) and strings. */
  datatype Value = Undefined | Null | NaN | Str(s: string)

  function Min(a: int, b: int): int { if a <= b then a else b }

  function Max(a: int, b: int): int { if a <= b then b else a }

  /** ToBoolean: `undefined`, `null`, `NaN` and the empty string are falsy;
      every other string is truthy. */
  predicate Truthy(v: Value) {
    v.Str? && v.s != ""
  }

  /** `a || b`: the left operand when it is truthy, else the right operand. */
  function Or(a: Value, b: Value): (r: Value)
    ensures r == a || r == b
    ensures Truthy(r) <==> Truthy(a) || Truthy(b)
  {
    if Truthy(a) then a else b
  }

  /** ToString of a value; in particular `undefined` becomes the text "undefined". */
  function ToString(v: Value): string {
    match v
    case Undefined => "undefined"
    case Null => "null"
    case NaN => "NaN"
    case Str(s) => s
  }

  predicate IsUndefinedOrString(v: Value) {
    v.Undefined? || v.Str?
  }

  /** `a + b` when each operand is `undefined` or a string: string
      concatenation of both ToStrings as soon as one operand is a string,
      and the number `NaN` when both are `undefined`. */
  function Plus(a: Value, b: Value): (r: Value)
    requires IsUndefinedOrString(a) && IsUndefinedOrString(b)
    ensures r.NaN? <==> a.Undefined? && b.Undefined?
    ensures !(a.Undefined? && b.Undefined?) ==> r == Str(ToString(a) + ToString(b))
  {
    if a.Str? || b.Str? then Str(ToString(a) + ToString(b)) else NaN
  }

  /** `s[i]`: the one-character string at index `i`, or `undefined` past the end. */
  function CharAt(s: string, i: nat): Value {
    if i < |s| then Str([s[i]]) else Undefined
  }

  /** `s.substr(start)` with the length argument omitted (String.prototype.substr,
      Annex B of ECMAScript): a negative start counts back from the end and is
      clamped at 0, a start past the end gives "". The integer -0 is 0, so
      `substr(-0)` is the whole string. */
  function Substr(s: string, start: int): (r: string)
    ensures |r| <= |s| && s == s[..|s| - |r|] + r
    ensures start < 0 ==> |r| == Min(-start, |s|)
    ensures 0 <= start ==> |r| == Max(|s| - start, 0)
  {
    var from := if start < 0 then Max(|s| + start, 0) else Min(start, |s|);
    s[from..]
  }

  /** ASCII lower-casing of one character; every other character is kept. */
  function LowerChar(c: char): char {
    if 'A' <= c <= 'Z' then (c as int - 'A' as int + 'a' as int) as char else c
  }

  /** `s.toLowerCase()` on the ASCII range: lowers each character on its own,
      so the length is kept. */
  function ToLowerCase(s: string): (r: string)
    ensures |r| == |s|
    ensures forall i :: 0 <= i < |s| ==> r[i] == LowerChar(s[i])
  {
    if s == [] then [] else [LowerChar(s[0])] + ToLowerCase(s[1..])
  }

  /** `a` and `b` differ at most in the ASCII case of their characters. */
  predicate SameIgnoringCase(a: string, b: string) {
    |a| == |b| && forall i :: 0 <= i < |a| ==> LowerChar(a[i]) == LowerChar(b[i])
  }

  /** Lower-casing forgets exactly the ASCII case: two strings have the same
      lower-case form if and only if they differ at most in case. */
  lemma ToLowerCaseIgnoresCase(a: string, b: string)
    ensures ToLowerCase(a) == ToLowerCase(b) <==> SameIgnoringCase(a, b)
  {
    if SameIgnoringCase(a, b) {
      assert forall i :: 0 <= i < |a| ==> ToLowerCase(a)[i] == ToLowerCase(b)[i];
    }
    if ToLowerCase(a) == ToLowerCase(b) {
      forall i | 0 <= i < |a| ensures LowerChar(a[i]) == LowerChar(b[i]) {
        assert ToLowerCase(a)[i] == ToLowerCase(b)[i];
      }
    }
  }
}
