/** Rust's `FromStr` for the primitive integer types, which the string source uses to turn
    a variable's value into a number: an optional sign (`+` only, for unsigned types), one
    or more ASCII digits, and a range check against the width.  `Render` is the decimal
    formatting it inverts. */
module Integers {
  import opened Serde

  predicate IsDigit(c: char) { '0' <= c <= '9' }

  predicate AllDigits(s: string) { forall i :: 0 <= i < |s| ==> IsDigit(s[i]) }

  /** The value of a run of decimal digits, most significant first. */
  function Value(s: string): nat
    requires AllDigits(s)
  {
    if s == [] then 0 else Value(s[..|s| - 1]) * 10 + (s[|s| - 1] as int - '0' as int)
  }

  /** Whether `s` starts with a minus sign the width admits. */
  predicate Negative(k: IntKind, s: string) { |s| > 0 && s[0] == '-' && k.Signed() }

  /** `s` without the one leading sign `FromStr` accepts for the width. */
  function Numeral(k: IntKind, s: string): string {
    if |s| > 0 && (s[0] == '+' || Negative(k, s)) then s[1..] else s
  }

  /** The value `s` denotes: its numeral's value, negated under a minus sign. */
  function SignedValue(k: IntKind, s: string): int
    requires AllDigits(Numeral(k, s))
  {
    var magnitude: int := Value(Numeral(k, s));
    if Negative(k, s) then -magnitude else magnitude
  }

  /** `<k>::from_str(s)`: an optional sign, then one or more digits, whose value with the
      sign applied must fit the width. */
  function ParseInteger(k: IntKind, s: string): (r: Option<int>)
    ensures r.Some? <==> Numeral(k, s) != [] && AllDigits(Numeral(k, s)) && k.Holds(SignedValue(k, s))
    ensures r.Some? ==> r.value == SignedValue(k, s)
    ensures r.Some? ==> k.Holds(r.value)
    ensures r.Some? ==> |s| > 0 && (IsDigit(s[0]) || s[0] == '+' || (s[0] == '-' && k.Signed()))
  {
    if |s| == 0 then None
    else
      var negative := s[0] == '-' && k.Signed();
      var digits := if s[0] == '+' || negative then s[1..] else s;
      if digits == [] || !AllDigits(digits) then None
      else
        var magnitude: int := Value(digits);
        var n := if negative then -magnitude else magnitude;
        if k.Holds(n) then Some(n) else None
  }

  function DigitChar(d: int): (c: char)
    requires 0 <= d < 10
    ensures IsDigit(c) && c as int - '0' as int == d
  {
    ('0' as int + d) as char
  }

  /** The decimal digits of a natural number, without leading zeros. */
  function Digits(n: nat): (s: string)
    ensures |s| > 0 && AllDigits(s)
  {
    if n < 10 then [DigitChar(n)] else Digits(n / 10) + [DigitChar(n % 10)]
  }

  /** Rust's `Display` for integers. */
  function Render(n: int): string {
    if n < 0 then ['-'] + Digits(-n) else Digits(n)
  }

  lemma {:induction false} ValueOfDigits(n: nat)
    ensures Value(Digits(n)) == n
  {
    if n >= 10 {
      var s := Digits(n);
      assert s[..|s| - 1] == Digits(n / 10);
      ValueOfDigits(n / 10);
    }
  }

  /** Parsing inverts rendering for every value the width holds. */
  lemma ParseRender(k: IntKind, n: int)
    requires k.Holds(n)
    ensures ParseInteger(k, Render(n)) == Some(n)
  {
    var s := Render(n);
    if n < 0 {
      ValueOfDigits(-n);
      assert k.Signed() && Negative(k, s);
      assert Numeral(k, s) == s[1..] == Digits(-n);
    } else {
      ValueOfDigits(n);
      assert IsDigit(s[0]) && !Negative(k, s);
      assert Numeral(k, s) == s == Digits(n);
    }
  }

  /** A rendered negative number never parses as an unsigned integer. */
  lemma NegativeIsNotUnsigned(k: IntKind, n: int)
    requires n < 0 && !k.Signed()
    ensures ParseInteger(k, Render(n)) == None
  {
  }
}
