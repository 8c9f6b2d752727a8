/**
 Recursive length prefix coding of arbitrarily nested items, with the strict minimal headers of
 Appendix B of the Ethereum Yellow Paper.
 */
module Rlp {
  import opened Wrappers
  import opened Bytes

  datatype Item = Data(bytes: seq<Byte>) | Array(items: seq<Item>)

  /* ---------- Encoding ---------- */

  /** The header of a payload; an eight-bit addition gives the byte that counts length bytes. */
  function EncodeHeader(list: bool, length: nat): (h: seq<Byte>)
    ensures h != []
  {
    if length < 56 then [(if list then 0xC0 else 0x80) + length]
    else [((if list then 0xF7 else 0xB7) + |BigEndian(length)|) % 256] + BigEndian(length)
  }

  function Encode(x: Item): (out: seq<Byte>)
    ensures out != []
    decreases x, 0
  {
    match x
    case Data(bytes) =>
      if |bytes| == 1 && bytes[0] < 0x80 then bytes
      else EncodeHeader(false, |bytes|) + bytes
    case Array(items) =>
      var payload := EncodeAll(items);
      EncodeHeader(true, |payload|) + payload
  }

  function EncodeAll(items: seq<Item>): (out: seq<Byte>)
    decreases items, 1
  {
    if items == [] then [] else Encode(items[0]) + EncodeAll(items[1..])
  }

  /** Every payload length, at every level, can be written in eight bytes. */
  predicate Fits(x: Item)
    decreases x, 0
  {
    match x
    case Data(bytes) => |bytes| < U64_MODULUS
    case Array(items) => |EncodeAll(items)| < U64_MODULUS && FitsAll(items)
  }

  predicate FitsAll(items: seq<Item>)
    decreases items, 1
  {
    items == [] || (Fits(items[0]) && FitsAll(items[1..]))
  }

  /* ---------- Decoding ---------- */

  datatype Error = InputTooShort | NonCanonicalSingleByte | NonCanonicalSize | LeadingZero

  /** A header, and the buffer after it; a single small byte is its own payload. */
  datatype Header = Header(list: bool, length: nat, rest: seq<Byte>)

  function DecodeHeader(buf: seq<Byte>): (r: Result<Header, Error>)
    ensures r.Ok? ==> r.value.length <= |r.value.rest| <= |buf|
    ensures r.Ok? && (r.value.list || r.value.length == 0) ==> |r.value.rest| < |buf|
  {
    if buf == [] then Err(InputTooShort) else
    var b, rest := buf[0], buf[1..];
    if b < 0x80 then Ok(Header(false, 1, buf))
    else if b < 0xB8 then
      var length := b - 0x80;
      if length == 1 && rest == [] then Err(InputTooShort)
      else if length == 1 && rest[0] < 0x80 then Err(NonCanonicalSingleByte)
      else Sized(false, length, rest)
    else if b < 0xC0 then DecodeLong(false, b - 0xB7, rest)
    else if b < 0xF8 then Sized(true, b - 0xC0, rest)
    else DecodeLong(true, b - 0xF7, rest)
  }

  function Sized(list: bool, length: nat, rest: seq<Byte>): (r: Result<Header, Error>)
  {
    if |rest| < length then Err(InputTooShort) else Ok(Header(list, length, rest))
  }

  function DecodeLong(list: bool, lengthBytes: nat, rest: seq<Byte>): (r: Result<Header, Error>)
    requires lengthBytes > 0
  {
    if |rest| < lengthBytes then Err(InputTooShort)
    else if rest[0] == 0 then Err(LeadingZero)
    else
      var length := FromBigEndian(rest[..lengthBytes]);
      if length < 56 then Err(NonCanonicalSize)
      else Sized(list, length, rest[lengthBytes..])
  }

  function DecodeItem(buf: seq<Byte>): (r: Result<(Item, seq<Byte>), Error>)
    ensures r.Ok? ==> |r.value.1| < |buf|
    decreases |buf|, 0
  {
    var h := DecodeHeader(buf);
    if h.Err? then Err(h.error) else
    var payload, after := h.value.rest[..h.value.length], h.value.rest[h.value.length..];
    if !h.value.list then Ok((Data(payload), after)) else
    var items := DecodeAll(payload);
    if items.Err? then Err(items.error) else Ok((Array(items.value), after))
  }

  function DecodeAll(buf: seq<Byte>): (r: Result<seq<Item>, Error>)
    decreases |buf|, 1
  {
    if buf == [] then Ok([]) else
    var first := DecodeItem(buf);
    if first.Err? then Err(first.error) else
    var others := DecodeAll(first.value.1);
    if others.Err? then Err(others.error) else Ok([first.value.0] + others.value)
  }

  /** A list of items in front of those still to be decoded. */
  function After(v: seq<Item>, others: Result<seq<Item>, Error>): (r: Result<seq<Item>, Error>)
  {
    if others.Err? then others else Ok(v + others.value)
  }

  /** The decoder: it advances a view of the payload and pushes one item after the other. */
  method Decode(buf: seq<Byte>) returns (r: Result<(Item, seq<Byte>), Error>)
    ensures r == DecodeItem(buf)
    decreases |buf|
  {
    var h := DecodeHeader(buf);
    if h.Err? {
      return Err(h.error);
    }
    var payload := h.value.rest[..h.value.length];
    var after := h.value.rest[h.value.length..];
    if h.value.list {
      var view, v := payload, [];
      assert DecodeAll(payload).Ok? ==> [] + DecodeAll(payload).value == DecodeAll(payload).value;
      while view != []
        invariant |view| <= |payload|
        invariant DecodeAll(payload) == After(v, DecodeAll(view))
        decreases |view|
      {
        var item := Decode(view);
        if item.Err? {
          return Err(item.error);
        }
        ghost var others := DecodeAll(item.value.1);
        if others.Ok? { Assoc(v, [item.value.0], others.value); }
        v := v + [item.value.0];
        view := item.value.1;
      }
      assert v + [] == v;
      return Ok((Array(v), after));
    } else {
      return Ok((Data(payload), after));
    }
  }

  /* ---------- Decoding what was encoded ---------- */

  lemma LongHeaderRoundTrip(list: bool, length: nat, tail: seq<Byte>)
    requires 56 <= length < U64_MODULUS && length <= |tail|
    ensures 0 < |BigEndian(length)| <= 8
    ensures DecodeLong(list, |BigEndian(length)|, BigEndian(length) + tail) ==
            Ok(Header(list, length, tail))
  {
    var be := BigEndian(length);
    EightBytes();
    BigEndianLength(length, 8);
    FromBigEndianInverse(length);
    assert (be + tail)[..|be|] == be && (be + tail)[|be|..] == tail;
  }

  lemma HeaderRoundTrip(list: bool, length: nat, tail: seq<Byte>)
    requires length < U64_MODULUS && length <= |tail|
    requires !list && length == 1 ==> tail[0] >= 0x80
    ensures DecodeHeader(EncodeHeader(list, length) + tail) == Ok(Header(list, length, tail))
  {
    if length < 56 {
      assert (EncodeHeader(list, length) + tail)[1..] == tail;
    } else {
      var be := BigEndian(length);
      LongHeaderRoundTrip(list, length, tail);
      var first := (if list then 0xF7 else 0xB7) + |be|;
      assert EncodeHeader(list, length) == [first] + be;
      Assoc([first], be, tail);
      assert ([first] + (be + tail))[1..] == be + tail;
    }
  }

  lemma PayloadRoundTrip(list: bool, payload: seq<Byte>, rest: seq<Byte>)
    requires |payload| < U64_MODULUS
    requires !list && |payload| == 1 ==> payload[0] >= 0x80
    ensures var buf := EncodeHeader(list, |payload|) + payload + rest;
            var h := DecodeHeader(buf);
            && h == Ok(Header(list, |payload|, payload + rest))
            && h.value.rest[..|payload|] == payload && h.value.rest[|payload|..] == rest
  {
    Assoc(EncodeHeader(list, |payload|), payload, rest);
    HeaderRoundTrip(list, |payload|, payload + rest);
  }

  /** Decoding an encoded item, whatever follows it, gives the item and leaves what follows. */
  lemma {:induction false} DecodeEncode(x: Item, rest: seq<Byte>)
    requires Fits(x)
    ensures DecodeItem(Encode(x) + rest) == Ok((x, rest))
    decreases x, 0
  {
    match x
    case Data(bytes) =>
      if |bytes| == 1 && bytes[0] < 0x80 {
        var buf := bytes + rest;
        assert DecodeHeader(buf) == Ok(Header(false, 1, buf));
        assert buf[..1] == bytes && buf[1..] == rest;
      } else {
        PayloadRoundTrip(false, bytes, rest);
      }
    case Array(items) =>
      var payload := EncodeAll(items);
      PayloadRoundTrip(true, payload, rest);
      DecodeEncodeAll(items);
  }

  lemma {:induction false} DecodeEncodeAll(items: seq<Item>)
    requires FitsAll(items)
    ensures DecodeAll(EncodeAll(items)) == Ok(items)
    decreases items, 1
  {
    if items != [] {
      DecodeEncode(items[0], EncodeAll(items[1..]));
      DecodeEncodeAll(items[1..]);
      assert [items[0]] + items[1..] == items;
    }
  }

  /* ---------- Encoding what was decoded ---------- */

  /** A header that is not a single small byte is the encoding of what it says. */
  lemma HeaderCanonical(buf: seq<Byte>)
    requires DecodeHeader(buf).Ok? && buf[0] >= 0x80
    ensures var h := DecodeHeader(buf).value;
            && h.length < U64_MODULUS
            && EncodeHeader(h.list, h.length) + h.rest == buf
            && (!h.list && h.length == 1 ==> h.rest[0] >= 0x80)
  {
    var b, rest := buf[0], buf[1..];
    assert buf == [b] + rest;
    if 0xB8 <= b < 0xC0 {
      LongCanonical(false, b - 0xB7, rest);
      LongHeaderCanonical(false, b, rest);
    } else if 0xF8 <= b {
      LongCanonical(true, b - 0xF7, rest);
      LongHeaderCanonical(true, b, rest);
    }
  }

  lemma LongHeaderCanonical(list: bool, b: Byte, rest: seq<Byte>)
    requires if list then 0xF8 <= b else 0xB8 <= b < 0xC0
    requires var n := b - (if list then 0xF7 else 0xB7); DecodeLong(list, n, rest).Ok?
    ensures var h := DecodeLong(list, b - (if list then 0xF7 else 0xB7), rest).value;
            EncodeHeader(h.list, h.length) + h.rest == [b] + rest
  {
    var n := b - (if list then 0xF7 else 0xB7);
    LongCanonical(list, n, rest);
    var h := DecodeLong(list, n, rest).value;
    Assoc([b], BigEndian(h.length), h.rest);
  }

  lemma LongCanonical(list: bool, n: nat, rest: seq<Byte>)
    requires 0 < n <= 8 && DecodeLong(list, n, rest).Ok?
    ensures var h := DecodeLong(list, n, rest).value;
            && h.length < U64_MODULUS
            && |BigEndian(h.length)| == n && BigEndian(h.length) + h.rest == rest
  {
    var be := rest[..n];
    BigEndianInverse(be);
    FromBigEndianBound(be);
    Pow256Monotone(n, 8);
    EightBytes();
    assert be + rest[n..] == rest;
  }

  /** Whenever decoding succeeds, re-encoding gives exactly the bytes that were consumed. */
  lemma {:induction false} EncodeDecode(buf: seq<Byte>)
    requires DecodeItem(buf).Ok?
    ensures var (x, rest) := DecodeItem(buf).value;
            Fits(x) && Encode(x) + rest == buf
    decreases |buf|, 0
  {
    var h := DecodeHeader(buf).value;
    var payload, after := h.rest[..h.length], h.rest[h.length..];
    assert payload + after == h.rest;
    if buf[0] >= 0x80 {
      HeaderCanonical(buf);
      Assoc(EncodeHeader(h.list, h.length), payload, after);
    }
    if h.list {
      EncodeDecodeAll(payload);
    } else if buf[0] >= 0x80 && h.length == 1 {
      assert payload[0] == h.rest[0];
    }
  }

  lemma {:induction false} EncodeDecodeAll(buf: seq<Byte>)
    requires DecodeAll(buf).Ok?
    ensures FitsAll(DecodeAll(buf).value) && EncodeAll(DecodeAll(buf).value) == buf
    decreases |buf|, 1
  {
    if buf != [] {
      EncodeDecode(buf);
      var (x, rest) := DecodeItem(buf).value;
      EncodeDecodeAll(rest);
      assert ([x] + DecodeAll(rest).value)[1..] == DecodeAll(rest).value;
    }
  }

  /** Different items have different encodings, and neither is a prefix of the other. */
  lemma EncodingIsPrefixFree(x: Item, y: Item, rest: seq<Byte>)
    requires Fits(x) && Fits(y)
    requires Encode(x) + rest == Encode(y)
    ensures x == y && rest == []
  {
    DecodeEncode(x, rest);
    DecodeEncode(y, []);
    assert Encode(y) + [] == Encode(y);
  }
}
