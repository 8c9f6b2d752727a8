/**
 Parsing and printing 256-bit numbers in base 2, 8, 10 and 16: base detection from the prefix, two's
 complement for negative decimals, and printing with or without the prefix.
 */
module Numbers {
  import opened Wrappers
  import opened Bytes

  const U256_MODULUS: nat :=
    0x1_0000_0000_0000_0000_0000_0000_0000_0000_0000_0000_0000_0000_0000_0000_0000_0000
  const I256_LIMIT: int :=
    0x8000_0000_0000_0000_0000_0000_0000_0000_0000_0000_0000_0000_0000_0000_0000_0000

  type U256 = n: nat | n < U256_MODULUS

  datatype Base = Binary | Octal | Decimal | Hexadecimal

  function Radix(b: Base): (r: nat)
    ensures 2 <= r <= 16
  {
    match b
    case Binary => 2
    case Octal => 8
    case Decimal => 10
    case Hexadecimal => 16
  }

  /** One more digit at the end of a number. */
  function Shift(b: Base, n: nat, d: nat): (r: nat)
    ensures r >= n && r >= d
  {
    match b
    case Binary => n * 2 + d
    case Octal => n * 8 + d
    case Decimal => n * 10 + d
    case Hexadecimal => n * 16 + d
  }

  /** A number without its last digit. */
  function Quotient(b: Base, n: nat): (q: nat)
    ensures q <= n && (n >= Radix(b) ==> 0 < q < n)
  {
    match b
    case Binary => n / 2
    case Octal => n / 8
    case Decimal => n / 10
    case Hexadecimal => n / 16
  }

  function LastDigit(b: Base, n: nat): (d: nat)
    ensures d < Radix(b)
    ensures Shift(b, Quotient(b, n), d) == n
  {
    match b
    case Binary => n % 2
    case Octal => n % 8
    case Decimal => n % 10
    case Hexadecimal => n % 16
  }

  function Prefix(b: Base): (p: string)
  {
    match b
    case Binary => "0b"
    case Octal => "0o"
    case Decimal => ""
    case Hexadecimal => "0x"
  }

  datatype NumberWithBase = NumberWithBase(number: U256, isNonnegative: bool, base: Base)

  datatype ParseError = InvalidDigit | Overflow | NoBase

  /* ---------- Digits ---------- */

  /** The digits of a number in a base, most significant first; zero is one digit. */
  function Show(n: nat, base: Base): (s: string)
    ensures s != []
  {
    if n < Radix(base) then [HexDigit(n)]
    else Show(Quotient(base, n), base) + [HexDigit(LastDigit(base, n))]
  }

  /** The value of a letter or digit in any base up to 36. */
  function CharValue(c: char): (v: Option<nat>)
  {
    if '0' <= c <= '9' then Some(c as nat - '0' as nat)
    else if 'a' <= c <= 'z' then Some(c as nat - 'a' as nat + 10)
    else if 'A' <= c <= 'Z' then Some(c as nat - 'A' as nat + 10)
    else None
  }

  /** The library's 256-bit parser: underscores are skipped and no digits at all give zero. */
  function FromStrRadix(s: string, base: Base, acc: U256): (r: Result<U256, ParseError>)
    decreases |s|
  {
    if s == [] then Ok(acc)
    else if s[0] == '_' then FromStrRadix(s[1..], base, acc)
    else
      var v := CharValue(s[0]);
      if v.None? || v.value >= Radix(base) then Err(InvalidDigit)
      else if Shift(base, acc, v.value) >= U256_MODULUS then Err(Overflow)
      else FromStrRadix(s[1..], base, Shift(base, acc, v.value))
  }

  /* ---------- Detecting the base ---------- */

  datatype Check = Fine | PosOverflow | Invalid

  /** The outcome of the standard library's 64-bit parser, which stops at the first overflow. */
  function CheckU64(s: string, base: Base, acc: nat): (r: Check)
    decreases |s|
  {
    if s == [] then Fine else
    var v := CharValue(s[0]);
    if v.None? || v.value >= Radix(base) then Invalid
    else if Shift(base, acc, v.value) >= U64_MODULUS then PosOverflow
    else CheckU64(s[1..], base, Shift(base, acc, v.value))
  }

  /** An empty text and a lone sign are invalid, a leading plus sign is accepted. */
  function ParseU64(s: string, base: Base): (r: Check)
  {
    if s == [] || s == "+" || s == "-" then Invalid
    else CheckU64(if s[0] == '+' then s[1..] else s, base, 0)
  }

  predicate StartsWith(s: string, p: string)
  {
    p <= s
  }

  function DetectPrefixed(s: string, base: Base): (r: Result<Base, ParseError>)
    requires |s| >= 2
  {
    if ParseU64(s[2..], base).Invalid? then Err(InvalidDigit) else Ok(base)
  }

  function Detect(s: string): (r: Result<Base, ParseError>)
    decreases |s|
  {
    if s != [] && (s[0] == '+' || s[0] == '-') then Detect(s[1..])
    else if StartsWith(s, "0b") then DetectPrefixed(s, Binary)
    else if StartsWith(s, "0o") then DetectPrefixed(s, Octal)
    else if StartsWith(s, "0x") then DetectPrefixed(s, Hexadecimal)
    else if FromStrRadix(s, Decimal, 0).Ok? then Ok(Decimal)
    else if FromStrRadix(s, Hexadecimal, 0).Ok? then Ok(Hexadecimal)
    else Err(NoBase)
  }

  /* ---------- Parsing ---------- */

  function StripPrefix(s: string): (r: string)
  {
    if |s| >= 2 && s[0] == '0' &&
       (s[1] == 'x' || s[1] == 'X' || s[1] == 'o' || s[1] == 'O' || s[1] == 'b' || s[1] == 'B')
    then s[2..] else s
  }

  function ParseMagnitude(s: string, base: Base): (r: Result<U256, ParseError>)
  {
    FromStrRadix(StripPrefix(s), base, 0)
  }

  /** Two's complement: the complement plus one, without the carry out of zero. */
  function Negate(n: U256): (r: U256)
  {
    if n == 0 then 0 else U256_MODULUS - n
  }

  function ParseSigned(s: string, base: Base): (r: Result<(U256, bool), ParseError>)
  {
    var signed := s != [] && (s[0] == '+' || s[0] == '-');
    var negative := s != [] && s[0] == '-';
    var n := ParseMagnitude(if signed then s[1..] else s, base);
    if n.Err? then Err(n.error)
    else Ok((if negative then Negate(n.value) else n.value, !negative))
  }

  function ResolveBase(s: string, base: Option<Base>): (r: Result<Base, ParseError>)
  {
    if base.Some? then Ok(base.value) else Detect(s)
  }

  function ParseInt(s: string, base: Option<Base>): (r: Result<NumberWithBase, ParseError>)
  {
    var b := ResolveBase(s, base);
    if b.Err? then Err(b.error) else
    var n := ParseSigned(s, b.value);
    if n.Err? then Err(n.error) else Ok(NumberWithBase(n.value.0, n.value.1, b.value))
  }

  function ParseUint(s: string, base: Option<Base>): (r: Result<NumberWithBase, ParseError>)
  {
    var b := ResolveBase(s, base);
    if b.Err? then Err(b.error) else
    var n := ParseMagnitude(s, b.value);
    if n.Err? then Err(n.error) else Ok(NumberWithBase(n.value, true, b.value))
  }

  /* ---------- Printing ---------- */

  function TrimZeros(s: string): (r: string)
  {
    if s != [] && s[0] == '0' then TrimZeros(s[1..]) else s
  }

  /** The absolute value of a word read as a signed number. */
  function SignedMagnitude(n: U256): (m: nat)
  {
    if n >= I256_LIMIT then U256_MODULUS - n else n
  }

  /** The number that is printed, before base and sign. */
  function Magnitude(n: NumberWithBase): (m: nat)
  {
    if n.base.Decimal? && !n.isNonnegative then SignedMagnitude(n.number) else n.number
  }

  function Format(n: NumberWithBase): (s: string)
  {
    TrimZeros(Show(Magnitude(n), n.base))
  }

  /** The debug form; the alternate form adds the prefix, and only decimals carry a sign. */
  function Debug(n: NumberWithBase, alternate: bool): (s: string)
  {
    var prefix := if alternate then Prefix(n.base) else "";
    if n.number == 0 then prefix + "0"
    else (if n.base.Decimal? && !n.isNonnegative then "-" else "") + prefix + Format(n)
  }

  /** A signed 256-bit number as a word. */
  function FromI256(i: int): (n: NumberWithBase)
    requires -I256_LIMIT <= i < I256_LIMIT
  {
    NumberWithBase(if i >= 0 then i else U256_MODULUS + i, i >= 0, Decimal)
  }

  /* ---------- What the digits of a number look like ---------- */

  predicate IsDigit(c: char, base: Base)
  {
    ('0' <= c <= '9' || 'a' <= c <= 'f') && CharValue(c).Some? && CharValue(c).value < Radix(base)
  }

  predicate AllDigits(s: string, base: Base)
  {
    forall i :: 0 <= i < |s| ==> IsDigit(s[i], base)
  }

  lemma HexDigitIsDigit(d: nat, base: Base)
    requires d < Radix(base)
    ensures IsDigit(HexDigit(d), base) && CharValue(HexDigit(d)) == Some(d)
  {}

  lemma {:induction false} ShowAllDigits(n: nat, base: Base)
    ensures AllDigits(Show(n, base), base)
  {
    if n < Radix(base) {
      HexDigitIsDigit(n, base);
    } else {
      ShowAllDigits(Quotient(base, n), base);
      HexDigitIsDigit(LastDigit(base, n), base);
    }
  }

  lemma {:induction false} ShowNoLeadingZero(n: nat, base: Base)
    requires n > 0
    ensures Show(n, base)[0] != '0'
  {
    if n >= Radix(base) {
      ShowNoLeadingZero(Quotient(base, n), base);
    }
  }

  lemma FormatIsShow(n: NumberWithBase)
    requires n.number != 0
    ensures Format(n) == Show(Magnitude(n), n.base)
    ensures Format(n)[0] != '0'
  {
    ShowNoLeadingZero(Magnitude(n), n.base);
  }

  /* ---------- Reading digits back ---------- */

  /** The number that decimal digits denote. */
  function DigitsValue(s: string): (n: nat)
    requires AllDigits(s, Decimal)
  {
    if s == [] then 0
    else
      assert IsDigit(Last(s), Decimal);
      Shift(Decimal, DigitsValue(Front(s)), CharValue(Last(s)).value)
  }

  lemma {:induction false} ShowValue(m: nat)
    ensures AllDigits(Show(m, Decimal), Decimal) && DigitsValue(Show(m, Decimal)) == m
  {
    ShowAllDigits(m, Decimal);
    if m < 10 {
      HexDigitIsDigit(m, Decimal);
      assert Front(Show(m, Decimal)) == [];
    } else {
      ShowValue(Quotient(Decimal, m));
      PushFrontLast(Show(Quotient(Decimal, m), Decimal), HexDigit(LastDigit(Decimal, m)));
      HexDigitIsDigit(LastDigit(Decimal, m), Decimal);
    }
  }


  lemma {:induction false} FromStrRadixSnoc(s: string, c: char, base: Base, acc: U256)
    requires AllDigits(s, base) && IsDigit(c, base)
    ensures FromStrRadix(s + [c], base, acc) ==
            var r := FromStrRadix(s, base, acc);
            if r.Err? then r
            else if Shift(base, r.value, CharValue(c).value) >= U256_MODULUS then Err(Overflow)
            else Ok(Shift(base, r.value, CharValue(c).value))
    decreases |s|
  {
    if s == [] {
      assert s + [c] == [c] && [c][1..] == [];
    } else {
      assert (s + [c])[1..] == s[1..] + [c];
      assert IsDigit(s[0], base);
      var next := Shift(base, acc, CharValue(s[0]).value);
      if next < U256_MODULUS {
        FromStrRadixSnoc(s[1..], c, base, next);
      }
    }
  }

  /** Parsing the digits of a number gives the number. */
  lemma {:induction false} ReadShow(n: U256, base: Base)
    ensures FromStrRadix(Show(n, base), base, 0) == Ok(n)
  {
    if n < Radix(base) {
      HexDigitIsDigit(n, base);
      assert Show(n, base)[1..] == [];
    } else {
      var q, d := Quotient(base, n), LastDigit(base, n);
      ReadShow(q, base);
      ShowAllDigits(q, base);
      HexDigitIsDigit(d, base);
      FromStrRadixSnoc(Show(q, base), HexDigit(d), base, 0);
    }
  }

  lemma {:induction false} DigitsAreNotInvalid(s: string, base: Base, acc: nat)
    requires AllDigits(s, base)
    ensures !CheckU64(s, base, acc).Invalid?
    decreases |s|
  {
    if s != [] {
      assert IsDigit(s[0], base);
      if Shift(base, acc, CharValue(s[0]).value) < U64_MODULUS {
        DigitsAreNotInvalid(s[1..], base, Shift(base, acc, CharValue(s[0]).value));
      }
    }
  }

  lemma PrefixedDigits(base: Base, digits: string)
    requires !base.Decimal? && digits != [] && AllDigits(digits, base)
    ensures Detect(Prefix(base) + digits) == Ok(base)
    ensures StripPrefix(Prefix(base) + digits) == digits
  {
    var s := Prefix(base) + digits;
    assert s[2..] == digits;
    assert IsDigit(digits[0], base);
    DigitsAreNotInvalid(digits, base, 0);
  }

  lemma DecimalDigits(m: U256)
    ensures var s := Show(m, Decimal);
            && Detect(s) == Ok(Decimal) && StripPrefix(s) == s
            && s[0] != '+' && s[0] != '-'
  {
    var s := Show(m, Decimal);
    ShowAllDigits(m, Decimal);
    assert IsDigit(s[0], Decimal);
    ReadShow(m, Decimal);
    if m > 0 {
      ShowNoLeadingZero(m, Decimal);
    }
  }

  /* ---------- Round trips ---------- */

  /** Base 2, 8 and 16 with the prefix: every word is read back, with its base. */
  lemma PrefixedRoundTrip(n: NumberWithBase)
    requires !n.base.Decimal?
    ensures ParseInt(Debug(n, true), None) == Ok(NumberWithBase(n.number, true, n.base))
  {
    var digits := Show(n.number, n.base);
    ShowAllDigits(n.number, n.base);
    ReadShow(n.number, n.base);
    if n.number != 0 {
      FormatIsShow(n);
      assert "" + Prefix(n.base) == Prefix(n.base);
    }
    assert Debug(n, true) == Prefix(n.base) + digits;
    PrefixedDigits(n.base, digits);
  }

  /** The decimal text: the sign, and then the digits of the magnitude. */
  lemma DecimalText(n: NumberWithBase, alternate: bool)
    requires n.base.Decimal?
    ensures Debug(n, alternate) ==
            if n.number != 0 && !n.isNonnegative then "-" + Show(Magnitude(n), Decimal)
            else Show(Magnitude(n), Decimal)
  {
    if n.number != 0 {
      FormatIsShow(n);
    }
  }

  lemma ReadNegative(m: U256)
    ensures ParseInt("-" + Show(m, Decimal), None) == Ok(NumberWithBase(Negate(m), false, Decimal))
  {
    var s := "-" + Show(m, Decimal);
    assert s[1..] == Show(m, Decimal);
    DecimalDigits(m);
    ReadShow(m, Decimal);
  }

  lemma ReadNonnegative(m: U256)
    ensures ParseInt(Show(m, Decimal), None) == Ok(NumberWithBase(m, true, Decimal))
  {
    DecimalDigits(m);
    ReadShow(m, Decimal);
  }

  /**
   Decimal text is read back as the same word if and only if the number is not negative, is zero,
   or is a word that is negative as a signed number.
   */
  lemma DecimalRoundTrip(n: NumberWithBase, alternate: bool)
    requires n.base.Decimal?
    ensures ParseInt(Debug(n, alternate), None).Ok?
    ensures ParseInt(Debug(n, alternate), None).value.number == n.number <==>
            n.isNonnegative || n.number == 0 || n.number >= I256_LIMIT
  {
    DecimalText(n, alternate);
    if n.number != 0 && !n.isNonnegative {
      ReadNegative(Magnitude(n));
    } else {
      ReadNonnegative(Magnitude(n));
    }
  }

  /**
   A number that cannot be told from its word: the text of -(2^256 - 5) is read as the word 5, marked
   negative. That number is printed as a text that is read back as another word.
   */
  lemma WrappedNegativeIsLost()
    ensures var read := ParseInt("-" + Show(U256_MODULUS - 5, Decimal), None);
            && read == Ok(NumberWithBase(5, false, Decimal))
            && var again := ParseInt(Debug(read.value, false), None);
               again.Ok? && again.value.number != 5
  {
    ReadNegative(U256_MODULUS - 5);
    DecimalRoundTrip(NumberWithBase(5, false, Decimal), false);
  }

  /** Every signed 256-bit number is read back with its sign. */
  lemma SignedRoundTrip(i: int, alternate: bool)
    requires -I256_LIMIT <= i < I256_LIMIT
    ensures ParseInt(Debug(FromI256(i), alternate), None) == Ok(FromI256(i))
  {
    var n := FromI256(i);
    DecimalText(n, alternate);
    if i < 0 {
      ReadNegative(Magnitude(n));
    } else {
      ReadNonnegative(Magnitude(n));
    }
  }

  /**
   Digits without a prefix are read back under their explicit base: the text has no leading zero,
   so it is never taken for a prefix, not even by a hexadecimal number that starts with 0b.
   */
  lemma UnprefixedRoundTrip(n: NumberWithBase)
    requires n.number != 0 && (n.base.Decimal? ==> n.isNonnegative)
    ensures Debug(n, false) == Format(n)
    ensures ParseInt(Format(n), Some(n.base)) == Ok(NumberWithBase(n.number, true, n.base))
  {
    FormatIsShow(n);
    var s := Show(n.number, n.base);
    assert Format(n) == s;
    ShowAllDigits(n.number, n.base);
    assert IsDigit(s[0], n.base);
    ReadShow(n.number, n.base);
    assert StripPrefix(s) == s;
    assert "" + "" + s == s;
  }
}
