/** JavaScript's `String(n)` for a whole, non-negative number that a
    `number` holds exactly (up to 2^53): its decimal digits, most
    significant first, without leading zeros.  `ParseDecimal` is the
    reference reading of such a string, and the two are inverse. */
module Decimal {
  import opened Wrappers

  predicate IsDigit(c: char) {
    '0' <= c <= '9'
  }

  predicate AllDigits(s: string) {
    forall i | 0 <= i < |s| :: IsDigit(s[i])
  }

  /** A digit string as `String(n)` writes it: at least one digit, and no
      leading zero unless the number is zero itself. */
  predicate Canonical(s: string) {
    |s| >= 1 && AllDigits(s) && (s[0] == '0' ==> |s| == 1)
  }

  /** The number a digit string denotes, read from its last digit. */
  function DecimalValue(s: string): nat
    requires AllDigits(s)
  {
    if |s| == 0 then 0
    else DecimalValue(s[..|s| - 1]) * 10 + (s[|s| - 1] as int - '0' as int)
  }

  /** `String(n)` for a natural number `n`; exact for n <= 2^53. */
  function NatToDecimal(n: nat): (s: string)
    ensures Canonical(s)
    ensures DecimalValue(s) == n
  {
    var last := ((n % 10) + '0' as int) as char;
    if n < 10 then [last]
    else
      var init := NatToDecimal(n / 10);
      assert (init + [last])[..|init|] == init;
      init + [last]
  }

  /** The number a string written by `String(n)` denotes; other strings are
      not numbers. */
  function ParseDecimal(s: string): (r: Option<nat>)
    ensures r.Some? ==> NatToDecimal(r.value) == s
  {
    if Canonical(s) then
      RenderValue(s);
      Some(DecimalValue(s))
    else None
  }

  /** The rendering is one-to-one: every canonical digit string is the
      rendering of exactly the number it denotes. */
  lemma DecimalRoundTrip(s: string, n: nat)
    ensures ParseDecimal(s) == Some(n) <==> s == NatToDecimal(n)
  {
  }

  lemma {:induction false} RenderValue(s: string)
    requires Canonical(s)
    ensures NatToDecimal(DecimalValue(s)) == s
    decreases |s|
  {
    var n := DecimalValue(s);
    if |s| > 1 {
      var init := s[..|s| - 1];
      assert init[0] == s[0];
      assert forall i | 0 <= i < |init| :: init[i] == s[i];
      var v := DecimalValue(init);
      LeadingDigitPositive(init);
      assert n / 10 == v && n % 10 == s[|s| - 1] as int - '0' as int;
      RenderValue(init);
      assert s == init + [s[|s| - 1]];
    }
  }

  lemma {:induction false} LeadingDigitPositive(s: string)
    requires |s| >= 1 && AllDigits(s) && s[0] != '0'
    ensures DecimalValue(s) >= 1
    decreases |s|
  {
    if |s| > 1 {
      var init := s[..|s| - 1];
      assert init[0] == s[0];
      assert forall i | 0 <= i < |init| :: init[i] == s[i];
      LeadingDigitPositive(init);
    }
  }
}
