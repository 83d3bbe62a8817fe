/** JavaScript's `Number(s)` and `n.toString()` on the whole numbers the forms
    carry (weeks, prices, seconds, view counts, minutes). */
module Numbers {
  import opened Wrappers

  /** A number as `Number(...)` produces it: a finite whole value, or NaN. */
  datatype JsNumber = Finite(value: nat) | NaN

  predicate IsDigit(c: char)
  {
    '0' <= c <= '9'
  }

  predicate AllDigits(s: string)
  {
    forall i :: 0 <= i < |s| ==> IsDigit(s[i])
  }

  function DigitValue(c: char): nat
    requires IsDigit(c)
  {
    c as int - '0' as int
  }

  function DigitChar(d: nat): (c: char)
    requires d < 10
    ensures IsDigit(c) && DigitValue(c) == d
  {
    ('0' as int + d) as char
  }

  /** The value of a decimal numeral (the empty numeral has value 0). */
  function ValueOf(s: string): nat
    requires AllDigits(s)
    decreases |s|
  {
    if |s| == 0 then 0
    else ValueOf(s[..|s| - 1]) * 10 + DigitValue(s[|s| - 1])
  }

  /** `Number(s)`: "" is 0, a decimal numeral is its value, anything else is NaN. */
  function NumberOf(s: string): (r: JsNumber)
    ensures s == "" ==> r == Finite(0)
    ensures r.NaN? <==> exists i :: 0 <= i < |s| && !IsDigit(s[i])
  {
    if AllDigits(s) then Finite(ValueOf(s)) else NaN
  }

  /** `n.toString()`: the shortest decimal numeral of `n`. */
  function Show(n: nat): (s: string)
    ensures |s| >= 1 && AllDigits(s)
    ensures s[0] == '0' ==> n == 0 && |s| == 1
    decreases n
  {
    if n < 10 then [DigitChar(n)]
    else Show(n / 10) + [DigitChar(n % 10)]
  }

  /** Parsing a printed number gives the number back. */
  lemma {:induction false} ShowRoundTrip(n: nat)
    ensures NumberOf(Show(n)) == Finite(n)
    decreases n
  {
    var s := Show(n);
    if n < 10 {
      assert s[..0] == "";
    } else {
      ShowRoundTrip(n / 10);
      assert s[..|s| - 1] == Show(n / 10);
      assert ValueOf(s) == ValueOf(Show(n / 10)) * 10 + n % 10;
    }
  }

  /** `s ? Number(s) : null`: an empty input is `null`, not 0. */
  function NumberOrNull(s: string): (r: Option<JsNumber>)
    ensures r.None? <==> s == ""
    ensures r.Some? ==> r.value == NumberOf(s)
  {
    if s == "" then None else Some(NumberOf(s))
  }

  /** `n?.toString() ?? ''`: the text an input shows for a nullable number. */
  function ShowOrEmpty(n: Option<nat>): (s: string)
    ensures s == "" <==> n.None?
    ensures n.Some? ==> AllDigits(s)
  {
    match n
    case None => ""
    case Some(v) => Show(v)
  }

  /** A stored nullable number as the payload carries it. */
  function AsNumber(n: Option<nat>): Option<JsNumber>
  {
    match n
    case None => None
    case Some(v) => Some(Finite(v))
  }

  /** Pre-filling a nullable number and submitting it gives it back. */
  lemma NullableNumberRoundTrip(n: Option<nat>)
    ensures NumberOrNull(ShowOrEmpty(n)) == AsNumber(n)
  {
    if n.Some? {
      ShowRoundTrip(n.value);
    }
  }
}
