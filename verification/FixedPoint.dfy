/** `to_fixed_point`: an integer printed with a decimal point before its last digits. */
module FixedPoint {
  import opened Wrappers
  import opened Bytes
  import opened Numbers

  datatype Error = Parse(error: ParseError) | DecimalsTooLarge

  function Zeros(n: nat): (s: string)
    ensures |s| == n
  {
    if n == 0 then [] else Zeros(n - 1) + ['0']
  }

  /** The text before and after the dot. */
  function Split(digits: string, decimals: nat): (parts: (string, string))
    ensures |parts.1| == decimals
  {
    if decimals >= |digits| then ("0", Zeros(decimals - |digits|) + digits)
    else (digits[..|digits| - decimals], digits[|digits| - decimals..])
  }

  /** The decimal form of a number of any base, without its sign. */
  function Unsigned(n: NumberWithBase): (s: string)
  {
    var text := Debug(n.(base := Decimal), true);
    if text != [] && text[0] == '-' then text[1..] else text
  }

  function ToFixedPoint(value: string, decimals: string): (r: Result<string, Error>)
  {
    var n := ParseInt(value, None);
    if n.Err? then Err(Parse(n.error)) else
    var d := ParseUint(decimals, None);
    if d.Err? then Err(Parse(d.error))
    else if d.value.number >= U64_MODULUS then Err(DecimalsTooLarge)
    else
      var parts := Split(Unsigned(n.value), d.value.number);
      Ok((if n.value.isNonnegative then "" else "-") + parts.0 + "." + parts.1)
  }

  /* ---------- What decimal digits denote ---------- */

  function Pow10(k: nat): (p: nat)
    ensures p > 0
  {
    if k == 0 then 1 else 10 * Pow10(k - 1)
  }

  lemma {:induction false} DigitsValueConcat(a: string, b: string)
    requires AllDigits(a, Decimal) && AllDigits(b, Decimal)
    ensures AllDigits(a + b, Decimal)
    ensures DigitsValue(a + b) == DigitsValue(a) * Pow10(|b|) + DigitsValue(b)
  {
    if b == [] {
      assert a + b == a;
    } else {
      assert Front(a + b) == a + Front(b) && Last(a + b) == Last(b);
      DigitsValueConcat(a, Front(b));
      TimesTen(DigitsValue(a), Pow10(|b| - 1));
    }
  }

  lemma TimesTen(x: nat, p: nat)
    ensures 10 * (x * p) == x * (10 * p)
  {}

  lemma {:induction false} ZerosAreZero(n: nat)
    ensures AllDigits(Zeros(n), Decimal) && DigitsValue(Zeros(n)) == 0
  {
    if n > 0 {
      ZerosAreZero(n - 1);
      PushFrontLast(Zeros(n - 1), '0');
    }
  }

  lemma {:induction false} TrimZerosPrefix(n: nat, s: string)
    ensures TrimZeros(Zeros(n) + s) == TrimZeros(s)
  {
    if n == 0 {
      assert Zeros(0) + s == s;
    } else {
      TrimZerosPrefix(n - 1, ['0'] + s);
      Assoc(Zeros(n - 1), ['0'], s);
      assert (['0'] + s)[1..] == s;
    }
  }

  /**
   The parts around the dot: the fraction has exactly the asked number of digits, dropping the dot
   and the leading zeros leaves the digits of the number, and the parts denote it.
   */
  lemma SplitDenotes(m: nat, decimals: nat)
    ensures var (whole, fraction) := Split(Show(m, Decimal), decimals);
            && |fraction| == decimals && whole != []
            && AllDigits(whole, Decimal) && AllDigits(fraction, Decimal)
            && TrimZeros(whole + fraction) == TrimZeros(Show(m, Decimal))
            && DigitsValue(whole) * Pow10(decimals) + DigitsValue(fraction) == m
  {
    var digits := Show(m, Decimal);
    ShowValue(m);
    if decimals >= |digits| {
      PaddedDenotes(digits, decimals - |digits|);
      assert DigitsValue("0") * Pow10(decimals) == 0;
    } else {
      var (whole, fraction) := Split(digits, decimals);
      assert whole + fraction == digits;
      DigitsValueConcat(whole, fraction);
    }
  }

  lemma PaddedDenotes(digits: string, k: nat)
    requires AllDigits(digits, Decimal)
    ensures var fraction := Zeros(k) + digits;
            && AllDigits("0", Decimal) && AllDigits(fraction, Decimal)
            && DigitsValue("0") == 0 && DigitsValue(fraction) == DigitsValue(digits)
            && TrimZeros("0" + fraction) == TrimZeros(digits)
  {
    ZerosAreZero(k);
    ZerosAreZero(1);
    assert Zeros(1) == Zeros(0) + ['0'] == "0";
    DigitsValueConcat(Zeros(k), digits);
    assert 0 * Pow10(|digits|) == 0;
    TrimZerosPrefix(1, Zeros(k) + digits);
    TrimZerosPrefix(k, digits);
  }

  /** The number denoted by digits before and after a dot. */
  function Denoted(whole: string, fraction: string): (r: real)
    requires AllDigits(whole, Decimal) && AllDigits(fraction, Decimal)
  {
    DigitsValue(whole) as real + DigitsValue(fraction) as real / Pow10(|fraction|) as real
  }

  /** The signed value of a parsed number. */
  function SignedValue(n: NumberWithBase): (i: int)
  {
    if n.isNonnegative then n.number else 0 - SignedMagnitude(n.number)
  }

  lemma UnsignedDigits(n: NumberWithBase)
    ensures var m := if n.isNonnegative then n.number else SignedMagnitude(n.number);
            Unsigned(n) == Show(m, Decimal)
  {
    var n' := n.(base := Decimal);
    DecimalText(n', true);
    var digits := Show(Magnitude(n'), Decimal);
    ShowAllDigits(Magnitude(n'), Decimal);
    assert IsDigit(digits[0], Decimal);
    assert ("-" + digits)[1..] == digits;
  }

  lemma RealQuotient(w: nat, f: nat, p: nat, m: nat)
    requires p > 0 && w * p + f == m
    ensures w as real + f as real / p as real == m as real / p as real
  {
    assert (w * p) as real == w as real * p as real;
  }

  lemma NegativeQuotient(m: nat, p: nat)
    requires p > 0
    ensures -1.0 * (m as real / p as real) == (0 - m) as real / p as real
  {
    assert (0 - m) as real == -(m as real);
  }

  lemma SplitDenotesQuotient(m: nat, decimals: nat)
    ensures var (whole, fraction) := Split(Show(m, Decimal), decimals);
            && AllDigits(whole, Decimal) && AllDigits(fraction, Decimal)
            && Denoted(whole, fraction) == m as real / Pow10(decimals) as real
  {
    SplitDenotes(m, decimals);
    var (whole, fraction) := Split(Show(m, Decimal), decimals);
    RealQuotient(DigitsValue(whole), DigitsValue(fraction), Pow10(decimals), m);
  }

  function Sign(n: NumberWithBase): (s: real)
  {
    if n.isNonnegative then 1.0 else -1.0
  }

  /**
   A text that prints a number with some decimals: a sign for negative numbers, digits, one dot,
   and exactly that many digits. Without the dot and the leading zeros these are the digits of the
   number, and they denote the number divided by that power of ten.
   */
  predicate Renders(text: string, n: NumberWithBase, decimals: nat)
  {
    var (whole, fraction) := Split(Unsigned(n), decimals);
    && text == (if n.isNonnegative then "" else "-") + whole + "." + fraction
    && |fraction| == decimals && whole != []
    && AllDigits(whole, Decimal) && AllDigits(fraction, Decimal)
    && TrimZeros(whole + fraction) == TrimZeros(Unsigned(n))
    && Sign(n) * Denoted(whole, fraction) == SignedValue(n) as real / Pow10(decimals) as real
  }

  lemma DigitsRender(n: NumberWithBase, decimals: nat)
    ensures var (whole, fraction) := Split(Unsigned(n), decimals);
            Renders((if n.isNonnegative then "" else "-") + whole + "." + fraction, n, decimals)
  {
    var m := if n.isNonnegative then n.number else SignedMagnitude(n.number);
    UnsignedDigits(n);
    SplitDenotes(m, decimals);
    SplitDenotesQuotient(m, decimals);
    NegativeQuotient(m, Pow10(decimals));
  }

  /** Whatever texts the number and the decimals are given as, the result renders the number. */
  lemma FixedPointDenotes(value: string, decimals: string, n: NumberWithBase, d: NumberWithBase)
    requires ParseInt(value, None) == Ok(n) && ParseUint(decimals, None) == Ok(d)
    requires d.number < U64_MODULUS
    ensures ToFixedPoint(value, decimals).Ok?
    ensures Renders(ToFixedPoint(value, decimals).value, n, d.number)
  {
    DigitsRender(n, d.number);
  }

  /** The text of a signed 256-bit number is rendered as that number. */
  lemma SignedFixedPoint(i: int, decimals: string, d: NumberWithBase)
    requires -I256_LIMIT <= i < I256_LIMIT
    requires ParseUint(decimals, None) == Ok(d) && d.number < U64_MODULUS
    ensures ToFixedPoint(Debug(FromI256(i), true), decimals).Ok?
    ensures Renders(ToFixedPoint(Debug(FromI256(i), true), decimals).value, FromI256(i), d.number)
    ensures SignedValue(FromI256(i)) == i
  {
    SignedRoundTrip(i, true);
    FixedPointDenotes(Debug(FromI256(i), true), decimals, FromI256(i), d);
  }
}
