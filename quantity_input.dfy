/**
 * The product page's quantity picker: the minus and plus buttons and the
 * typed value, which is read with JavaScript's parseInt.
 */
module QuantityInput {
  import opened Wrappers
  import opened Text

  /** How many characters at the start of `s` are ASCII digits. */
  function LeadingDigits(s: string): (n: nat)
    ensures n <= |s|
    ensures forall i :: 0 <= i < n ==> IsAsciiDigit(s[i])
    ensures n < |s| ==> !IsAsciiDigit(s[n])
  {
    if s != [] && IsAsciiDigit(s[0]) then 1 + LeadingDigits(s[1..]) else 0
  }

  /** The decimal value of a run of ASCII digits. */
  function DecimalValue(d: string): nat
    requires forall i :: 0 <= i < |d| ==> IsAsciiDigit(d[i])
  {
    if d == [] then 0
    else
      assert IsAsciiDigit(d[|d| - 1]);
      DecimalValue(d[..|d| - 1]) * 10 + (d[|d| - 1] as int - '0' as int)
  }

  /**
   * `parseInt(s, 10)`: leading white space is skipped, one sign is read, then
   * as many digits as follow; None stands for NaN (no digit at all).
   */
  function JsParseInt(s: string): (r: Option<int>)
  {
    var t := TrimStart(JavaScript, s);
    var signed := t != [] && (t[0] == '-' || t[0] == '+');
    var body := if signed then t[1..] else t;
    var n := LeadingDigits(body);
    if n == 0 then None
    else
      var v: int := DecimalValue(body[..n]);
      Some(if signed && t[0] == '-' then -v else v)
  }

  /** The decimal text of a number reads back as that number. */
  lemma {:induction false} DecimalValueOfNatToString(n: nat)
    ensures DecimalValue(NatToString(n)) == n
    decreases n
  {
    if n >= 10 {
      var s := NatToString(n);
      assert s[..|s| - 1] == NatToString(n / 10);
      DecimalValueOfNatToString(n / 10);
    }
  }

  /** handleDecrement: emits one less only above 1. */
  function Decrement(quantity: int): (r: Option<int>)
    ensures r.Some? <==> quantity > 1
    ensures r.Some? ==> r.value == quantity - 1 && r.value >= 1
  {
    if quantity > 1 then Some(quantity - 1) else None
  }

  /** The minus button is disabled at 1 or below, or when the whole picker is. */
  predicate DecrementDisabled(quantity: int, disabled: bool) { quantity <= 1 || disabled }

  /** handleIncrement: emits one more. */
  function Increment(quantity: int): (r: int)
    ensures r > quantity
  {
    quantity + 1
  }

  /** handleChange: a number of at least 1 is emitted, empty text emits 1, anything else is ignored. */
  function Typed(text: string): (r: Option<int>)
    ensures r.Some? ==> r.value >= 1
    ensures text == "" ==> r == Some(1)
    ensures text != "" ==> (r.Some? <==> JsParseInt(text).Some? && JsParseInt(text).value >= 1)
    ensures text != "" && r.Some? ==> r == JsParseInt(text)
  {
    var v := JsParseInt(text);
    if v.Some? && v.value >= 1 then v
    else if text == "" then Some(1)
    else None
  }

  /** Typing the decimal text of a positive quantity selects that quantity. */
  lemma TypedRoundTrip(n: nat)
    requires n >= 1
    ensures Typed(NatToString(n)) == Some(n)
  {
    var s := NatToString(n);
    assert !IsSpace(JavaScript, s[0]) && s[0] != '-' && s[0] != '+';
    assert TrimStart(JavaScript, s) == s;
    assert s[..|s|] == s;
    DecimalValueOfNatToString(n);
  }

  /**
   * No handler emits a quantity below 1 from a shown quantity of at least 1,
   * and an enabled minus button always emits; plus then minus returns to the
   * starting quantity.
   */
  lemma QuantityStaysPositive(quantity: int, text: string, disabled: bool)
    requires quantity >= 1
    ensures Decrement(quantity).Some? ==> Decrement(quantity).value >= 1
    ensures Increment(quantity) >= 1
    ensures Typed(text).Some? ==> Typed(text).value >= 1
    ensures !DecrementDisabled(quantity, disabled) ==> Decrement(quantity).Some?
    ensures Decrement(Increment(quantity)) == Some(quantity)
  {
  }
}
