/** Bytes, big-endian numbers and hexadecimal text. */
module Bytes {
  import opened Wrappers

  type Byte = b: nat | b < 256

  /* ---------- Big-endian numbers ---------- */

  /** The shortest big-endian form of a number; zero has no digits. */
  function BigEndian(n: nat): (bs: seq<Byte>)
    ensures bs != [] ==> bs[0] != 0
    ensures bs == [] <==> n == 0
  {
    if n == 0 then [] else
    var high := BigEndian(n / 256);
    high + [n % 256]
  }

  function FromBigEndian(bs: seq<Byte>): (n: nat)
  {
    if bs == [] then 0 else FromBigEndian(Front(bs)) * 256 + Last(bs)
  }

  lemma {:induction false} FromBigEndianInverse(n: nat)
    ensures FromBigEndian(BigEndian(n)) == n
  {
    if n > 0 {
      var high := BigEndian(n / 256);
      PushFrontLast(high, n % 256);
      FromBigEndianInverse(n / 256);
    }
  }

  lemma {:induction false} BigEndianInverse(bs: seq<Byte>)
    requires bs != [] ==> bs[0] != 0
    ensures BigEndian(FromBigEndian(bs)) == bs
  {
    if bs != [] {
      var n := FromBigEndian(bs);
      assert n / 256 == FromBigEndian(Front(bs)) && n % 256 == Last(bs);
      if |bs| > 1 { assert Front(bs)[0] == bs[0]; }
      BigEndianInverse(Front(bs));
      FrontLast(bs);
    }
  }

  function Pow2(k: nat): (p: nat)
    ensures p > 0
  {
    if k == 0 then 1 else 2 * Pow2(k - 1)
  }

  function Pow256(k: nat): (p: nat)
    ensures p > 0
  {
    if k == 0 then 1 else 256 * Pow256(k - 1)
  }

  lemma {:induction false} BigEndianLength(n: nat, k: nat)
    requires n < Pow256(k)
    ensures |BigEndian(n)| <= k
  {
    if n > 0 {
      assert k > 0;
      assert n / 256 < Pow256(k - 1);
      BigEndianLength(n / 256, k - 1);
    }
  }

  lemma {:induction false} FromBigEndianBound(bs: seq<Byte>)
    ensures FromBigEndian(bs) < Pow256(|bs|)
  {
    if bs != [] {
      FromBigEndianBound(Front(bs));
    }
  }

  lemma {:induction false} Pow256Monotone(j: nat, k: nat)
    requires j <= k
    ensures Pow256(j) <= Pow256(k)
  {
    if j < k { Pow256Monotone(j, k - 1); }
  }

  const U64_MODULUS: nat := 0x1_0000_0000_0000_0000

  lemma EightBytes()
    ensures Pow256(8) == U64_MODULUS
  {
    assert Pow256(4) == 0x1_0000_0000;
    assert Pow256(8) == 256 * (256 * (256 * (256 * Pow256(4))));
  }

  /* ---------- Hexadecimal text ---------- */

  const HEX_DIGITS := "0123456789abcdef"

  function HexDigit(d: nat): (c: char)
    requires d < 16
    ensures '0' <= c <= '9' || 'a' <= c <= 'f'
    ensures HexValue(c) == Some(d)
  {
    HEX_DIGITS[d]
  }

  /** The value of a hexadecimal digit in either case. */
  function HexValue(c: char): (v: Option<nat>)
    ensures v.Some? ==> v.value < 16
  {
    if '0' <= c <= '9' then Some(c as nat - '0' as nat)
    else if 'a' <= c <= 'f' then Some(c as nat - 'a' as nat + 10)
    else if 'A' <= c <= 'F' then Some(c as nat - 'A' as nat + 10)
    else None
  }

  function EncodeHex(bs: seq<Byte>): (s: string)
    ensures |s| == 2 * |bs|
  {
    if bs == [] then []
    else [HexDigit(bs[0] / 16), HexDigit(bs[0] % 16)] + EncodeHex(bs[1..])
  }

  /** Pairs of digits in either case; None for an odd length or any other character. */
  function DecodeHexDigits(s: string): (bs: Option<seq<Byte>>)
  {
    if s == [] then Some([])
    else if |s| == 1 then None
    else
      var high, low, rest := HexValue(s[0]), HexValue(s[1]), DecodeHexDigits(s[2..]);
      if high.None? || low.None? || rest.None? then None
      else Some([high.value * 16 + low.value] + rest.value)
  }

  function StripHexPrefix(s: string): (r: string)
  {
    if |s| >= 2 && s[0] == '0' && s[1] == 'x' then s[2..] else s
  }

  /** Hexadecimal text with or without the `0x` prefix. */
  function DecodeHex(s: string): (bs: Option<seq<Byte>>)
  {
    DecodeHexDigits(StripHexPrefix(s))
  }

  lemma DecodePair(high: nat, low: nat, rest: string)
    requires high < 16 && low < 16
    ensures DecodeHexDigits([HexDigit(high), HexDigit(low)] + rest) ==
            var bs := DecodeHexDigits(rest);
            if bs.None? then None else Some([high * 16 + low] + bs.value)
  {
    assert ([HexDigit(high), HexDigit(low)] + rest)[2..] == rest;
  }

  lemma {:induction false} DecodeEncodeHex(bs: seq<Byte>)
    ensures DecodeHexDigits(EncodeHex(bs)) == Some(bs)
  {
    if bs != [] {
      DecodeEncodeHex(bs[1..]);
      DecodePair(bs[0] / 16, bs[0] % 16, EncodeHex(bs[1..]));
      assert [bs[0]] + bs[1..] == bs;
    }
  }

  lemma DecodePrefixedHex(bs: seq<Byte>)
    ensures DecodeHex("0x" + EncodeHex(bs)) == Some(bs)
  {
    assert ("0x" + EncodeHex(bs))[2..] == EncodeHex(bs);
    DecodeEncodeHex(bs);
  }

  /** Hexadecimal text holds nothing but lower-case digits. */
  lemma {:induction false} EncodeHexPlain(bs: seq<Byte>, i: nat)
    requires i < 2 * |bs|
    ensures '0' <= EncodeHex(bs)[i] <= '9' || 'a' <= EncodeHex(bs)[i] <= 'f'
  {
    if i >= 2 {
      EncodeHexPlain(bs[1..], i - 2);
    }
  }
}
