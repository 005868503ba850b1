/** The startup rule of the second widget, `Number(stored) || default`,
    and the decimal text that `localStorage.setItem` stores for a counter.

    `Number` is modelled on the strings this program can have stored: an
    optional sign followed by decimal digits, and the empty string (which
    `Number` reads as 0). Any other text reads as `NaN`. */
module Restore {
  import opened Wrappers

  /** A JavaScript number as this program can see it. */
  datatype JsNumber = Num(value: int) | NaN

  predicate IsDigit(c: char) {
    '0' <= c <= '9'
  }

  predicate AllDigits(s: string) {
    forall i :: 0 <= i < |s| ==> IsDigit(s[i])
  }

  function DigitChar(d: nat): (c: char)
    requires d < 10
    ensures IsDigit(c)
  {
    ('0' as int + d) as char
  }

  function DigitValue(c: char): (d: nat)
    requires IsDigit(c)
    ensures d < 10 && DigitChar(d) == c
  {
    (c as int - '0' as int) as nat
  }

  /** The value of a string of decimal digits, most significant first. */
  function DigitsValue(s: string): (v: nat)
    requires AllDigits(s)
    decreases |s|
  {
    if |s| == 0 then 0 else DigitsValue(s[..|s| - 1]) * 10 + DigitValue(s[|s| - 1])
  }

  /** The decimal digits of `n`, without leading zeros. */
  function NatDigits(n: nat): (s: string)
    ensures |s| > 0 && AllDigits(s)
    decreases n
  {
    if n < 10 then [DigitChar(n)] else NatDigits(n / 10) + [DigitChar(n % 10)]
  }

  /** Reading back the digits of `n` gives `n`. */
  lemma {:induction false} DigitsRoundTrip(n: nat)
    ensures DigitsValue(NatDigits(n)) == n
    decreases n
  {
    if n >= 10 {
      var s := NatDigits(n);
      assert s[..|s| - 1] == NatDigits(n / 10);
      DigitsRoundTrip(n / 10);
    }
  }

  /** `String(n)` for an integer counter. */
  function Show(n: int): (s: string) {
    if n < 0 then "-" + NatDigits(-n) else NatDigits(n)
  }

  /** `Number(x)` for a stored value `x`; `None` is the `null` that
      `localStorage.getItem` returns for a missing key. */
  function ToNumber(stored: Option<string>): (r: JsNumber)
    ensures stored == None ==> r == Num(0)
    ensures stored == Some("") ==> r == Num(0)
    ensures stored.Some? && |stored.value| > 0 ==>
      (!IsDigit(stored.value[0]) && stored.value[0] != '-' && stored.value[0] != '+' ==> r == NaN)
  {
    match stored
    case None => Num(0)
    case Some(s) =>
      if |s| == 0 then Num(0)
      else if AllDigits(s) then Num(DigitsValue(s))
      else if (s[0] == '-' || s[0] == '+') && |s| > 1 && AllDigits(s[1..]) then
        var v: int := DigitsValue(s[1..]);
        if s[0] == '-' then Num(-v) else Num(v)
      else NaN
  }

  /** `Number(stored) || default`: the stored number when it is a nonzero
      number, and the default otherwise (missing key, stored zero, or text
      that is not a number). */
  function RestoreOr(stored: Option<string>, default: int): (r: int)
    ensures ToNumber(stored).Num? && ToNumber(stored).value != 0 ==> r == ToNumber(stored).value
    ensures ToNumber(stored) == NaN || ToNumber(stored) == Num(0) ==> r == default
  {
    match ToNumber(stored)
    case NaN => default
    case Num(v) => if v != 0 then v else default
  }

  /** Storing a counter and reading it back at the next start gives the
      counter unless it was zero, which comes back as the default: a saved
      0 spins restores as 5. */
  lemma SaveThenRestore(n: int, default: int)
    ensures ToNumber(Some(Show(n))) == Num(n)
    ensures RestoreOr(Some(Show(n)), default) == if n != 0 then n else default
  {
    if n < 0 {
      DigitsRoundTrip(-n);
      assert Show(n)[1..] == NatDigits(-n);
    } else {
      DigitsRoundTrip(n);
    }
  }
}
