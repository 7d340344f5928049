/**
 JavaScript values as the admin console uses them: optional values (a missing
 property reads as `undefined`) and the truthiness rules behind `||` and `!`.
 */
module JsValues {

  /** A property that may be missing (`undefined`/`null`) or present. */
  datatype Option<+T> = None | Some(value: T)

  /** Truthiness of an optional string: `undefined`, `null` and `""` are falsy. */
  predicate Truthy(o: Option<string>) {
    o.Some? && o.value != ""
  }

  /** Truthiness of an optional number: `undefined`, `null` and `0` are falsy. */
  predicate TruthyNumber(o: Option<int>) {
    o.Some? && o.value != 0
  }

  /** `a || b` on optional strings: the first operand when it is truthy, else the second. */
  function Or(a: Option<string>, b: Option<string>): (r: Option<string>)
    ensures Truthy(r) <==> Truthy(a) || Truthy(b)
    ensures Truthy(a) ==> r == a
    ensures !Truthy(a) ==> r == b
  {
    if Truthy(a) then a else b
  }

  /** `a || "fallback"` where the fallback is a non-empty literal: always a non-empty string. */
  function OrElse(a: Option<string>, fallback: string): (r: string)
    requires fallback != ""
    ensures r != ""
    ensures Truthy(a) ==> r == a.value
    ensures !Truthy(a) ==> r == fallback
  {
    if Truthy(a) then a.value else fallback
  }

  /**
   `n || fallback` on optional numbers: a non-zero number wins over the
   fallback, and the result is zero only when both are.
   */
  function OrNumber(n: Option<int>, fallback: int): (r: int)
    ensures TruthyNumber(Some(r)) <==> TruthyNumber(n) || fallback != 0
    ensures fallback != 0 ==> r != 0
    ensures TruthyNumber(n) ==> r == n.value
    ensures !TruthyNumber(n) ==> r == fallback
  {
    if TruthyNumber(n) then n.value else fallback
  }
}
