/**
 The text form of nested items, as JSON arrays of hexadecimal strings, and reading JSON values back
 as items.
 */
module RlpText {
  import opened Wrappers
  import opened Bytes
  import opened Rlp
  import opened Json
  import Numbers

  datatype Error = HasBoolean | HasObject | BadNumber | BadHex

  /* ---------- From JSON values to items ---------- */

  function ValueToItem(v: Value): (r: Result<Item, Error>)
    decreases v, 0
  {
    match v
    case Null => Ok(Data([]))
    case Bool(_) => Err(HasBoolean)
    case Number(text) =>
      var n := Numbers.FromStrRadix(text, Numbers.Decimal, 0);
      if n.Err? then Err(BadNumber) else Ok(Data(BigEndian(n.value)))
    case Str(s) =>
      var bytes := DecodeHex(s);
      if bytes.None? then Err(BadHex) else Ok(Data(bytes.value))
    case Arr(items) =>
      var xs := ValuesToItems(items);
      if xs.Err? then Err(xs.error) else Ok(Array(xs.value))
    case Obj(_) => Err(HasObject)
  }

  function ValuesToItems(vs: seq<Value>): (r: Result<seq<Item>, Error>)
    decreases vs, 1
  {
    if vs == [] then Ok([]) else
    var x := ValueToItem(vs[0]);
    if x.Err? then Err(x.error) else
    var xs := ValuesToItems(vs[1..]);
    if xs.Err? then Err(xs.error) else Ok([x.value] + xs.value)
  }

  /* ---------- Printing ---------- */

  const QUOTE := '\"'

  function Quoted(bytes: seq<Byte>): (s: string)
  {
    [QUOTE] + ("0x" + EncodeHex(bytes)) + [QUOTE]
  }

  function Print(x: Item): (s: string)
    ensures s != []
    decreases x, 0
  {
    match x
    case Data(bytes) => Quoted(bytes)
    case Array(items) => "[" + PrintAll(items) + "]"
  }

  /** Items separated by commas. */
  function PrintAll(items: seq<Item>): (s: string)
    decreases items, 1
  {
    if items == [] then []
    else if |items| == 1 then Print(items[0])
    else Print(items[0]) + "," + PrintAll(items[1..])
  }

  lemma {:induction false} PrintAllSnoc(items: seq<Item>, x: Item)
    ensures PrintAll(items + [x]) ==
            PrintAll(items) + (if items == [] then "" else ",") + Print(x)
    decreases |items|
  {
    if items == [] {
      assert items + [x] == [x];
    } else {
      assert (items + [x])[1..] == items[1..] + [x];
      PrintAllSnoc(items[1..], x);
      if |items| == 1 {
        assert items[1..] == [];
      } else {
        var a, b := Print(items[0]) + ",", PrintAll(items[1..]);
        Assoc(a, b + ",", Print(x));
        Assoc(a, b, ",");
      }
    }
  }

  /** The formatter: it writes to a sink, with a comma before every item but the first. */
  method Display(x: Item, sink: string) returns (out: string)
    ensures out == sink + Print(x)
    decreases x
  {
    match x {
      case Data(bytes) =>
        out := sink + Quoted(bytes);
      case Array(items) =>
        out := sink + "[";
        for i := 0 to |items|
          invariant out == sink + "[" + PrintAll(items[..i])
        {
          ghost var before := PrintAll(items[..i]);
          if i > 0 {
            out := out + ",";
          }
          out := Display(items[i], out);
          assert items[..i] + [items[i]] == items[..i + 1];
          PrintAllSnoc(items[..i], items[i]);
          Assoc(sink + "[", before, if i == 0 then "" else ",");
          Assoc(sink + "[", before + (if i == 0 then "" else ","), Print(items[i]));
          assert i == 0 ==> before + "" == before;
        }
        assert items[..|items|] == items;
        Assoc(sink + "[", PrintAll(items), "]");
        Assoc(sink, "[", PrintAll(items) + "]");
        Assoc("[", PrintAll(items), "]");
        out := out + "]";
    }
  }

  /* ---------- Reading the text back ---------- */

  /**
   A JSON reader for the texts that are printed: arrays, and strings without escapes, with no white
   space. The result is the value read and the text after it.
   */
  function ReadValue(s: string): (r: Option<(Value, string)>)
    ensures r.Some? ==> |r.value.1| < |s|
    decreases |s|, 0
  {
    if s == [] then None
    else if s[0] == QUOTE then
      var t := ReadString(s[1..]);
      if t.None? then None else Some((Str(t.value.0), t.value.1))
    else if s[0] == '[' then
      if |s| >= 2 && s[1] == ']' then Some((Arr([]), s[2..])) else
      var vs := ReadValues(s[1..]);
      if vs.None? then None else Some((Arr(vs.value.0), vs.value.1))
    else None
  }

  /** The text up to the next quote. */
  function ReadString(s: string): (r: Option<(string, string)>)
    ensures r.Some? ==> |r.value.1| < |s|
  {
    if s == [] || s[0] == '\\' then None
    else if s[0] == QUOTE then Some(([], s[1..]))
    else
      var t := ReadString(s[1..]);
      if t.None? then None else Some(([s[0]] + t.value.0, t.value.1))
  }

  /** One or more values separated by commas, up to and including the closing bracket. */
  function ReadValues(s: string): (r: Option<(seq<Value>, string)>)
    ensures r.Some? ==> |r.value.1| < |s|
    decreases |s|, 1
  {
    var v := ReadValue(s);
    if v.None? || v.value.1 == [] then None
    else if v.value.1[0] == ']' then Some(([v.value.0], v.value.1[1..]))
    else if v.value.1[0] == ',' then
      var vs := ReadValues(v.value.1[1..]);
      if vs.None? then None else Some(([v.value.0] + vs.value.0, vs.value.1))
    else None
  }

  /** The JSON value that the printed text denotes. */
  function ToValue(x: Item): (v: Value)
    decreases x, 0
  {
    match x
    case Data(bytes) => Str("0x" + EncodeHex(bytes))
    case Array(items) => Arr(ToValues(items))
  }

  function ToValues(items: seq<Item>): (vs: seq<Value>)
    ensures |vs| == |items|
    decreases items, 1
  {
    if items == [] then [] else [ToValue(items[0])] + ToValues(items[1..])
  }

  predicate Plain(s: string)
  {
    forall i :: 0 <= i < |s| ==> s[i] != QUOTE && s[i] != '\\'
  }

  lemma {:induction false} ReadPlain(s: string, rest: string)
    requires Plain(s)
    ensures ReadString(s + [QUOTE] + rest) == Some((s, rest))
  {
    if s == [] {
      assert (s + [QUOTE] + rest)[1..] == rest;
    } else {
      assert (s + [QUOTE] + rest)[1..] == s[1..] + [QUOTE] + rest;
      ReadPlain(s[1..], rest);
      assert [s[0]] + s[1..] == s;
    }
  }

  lemma HexIsPlain(bytes: seq<Byte>)
    ensures Plain("0x" + EncodeHex(bytes))
  {
    var s := "0x" + EncodeHex(bytes);
    forall i | 0 <= i < |s|
      ensures s[i] != QUOTE && s[i] != '\\'
    {
      if i >= 2 { EncodeHexPlain(bytes, i - 2); }
    }
  }

  lemma ReadQuoted(bytes: seq<Byte>, rest: string)
    ensures ReadValue(Quoted(bytes) + rest) == Some((Str("0x" + EncodeHex(bytes)), rest))
  {
    var s := "0x" + EncodeHex(bytes);
    HexIsPlain(bytes);
    ReadPlain(s, rest);
    assert (Quoted(bytes) + rest)[1..] == s + [QUOTE] + rest;
  }

  lemma PrintStart(x: Item)
    ensures Print(x)[0] == QUOTE || Print(x)[0] == '['
  {}

  /** Reading a printed item, whatever follows it, gives its value and leaves what follows. */
  lemma {:induction false} ReadPrint(x: Item, rest: string)
    ensures ReadValue(Print(x) + rest) == Some((ToValue(x), rest))
    decreases x, 0
  {
    match x
    case Data(bytes) => ReadQuoted(bytes, rest);
    case Array(items) =>
      var inner := PrintAll(items) + "]" + rest;
      var s := Print(x) + rest;
      assert s == "[" + inner;
      assert s[1..] == inner;
      if items == [] {
        assert s[2..] == rest;
      } else {
        ReadPrintAll(items, rest);
        PrintStart(items[0]);
        assert inner[0] == Print(items[0])[0];
      }
  }

  lemma ReadLast(s: string, v: Value, rest: string)
    requires ReadValue(s) == Some((v, "]" + rest))
    ensures ReadValues(s) == Some(([v], rest))
  {
    assert ("]" + rest)[1..] == rest;
  }

  lemma ReadMore(s: string, v: Value, others: string, vs: seq<Value>, rest: string)
    requires ReadValue(s) == Some((v, "," + others))
    requires ReadValues(others) == Some((vs, rest))
    ensures ReadValues(s) == Some(([v] + vs, rest))
  {
    assert ("," + others)[1..] == others;
  }

  lemma PrintMore(a: string, b: string, rest: string)
    ensures a + "," + b + "]" + rest == a + ("," + (b + "]" + rest))
  {
    Assoc(a, ",", b);
    Assoc(a, "," + b, "]");
    Assoc(a, "," + b + "]", rest);
    Assoc(",", b, "]");
    Assoc(",", b + "]", rest);
  }

  lemma {:induction false} ReadPrintAll(items: seq<Item>, rest: string)
    requires items != []
    ensures ReadValues(PrintAll(items) + "]" + rest) == Some((ToValues(items), rest))
    decreases items, 1
  {
    if |items| == 1 {
      ReadPrint(items[0], "]" + rest);
      Assoc(Print(items[0]), "]", rest);
      ReadLast(Print(items[0]) + ("]" + rest), ToValue(items[0]), rest);
      assert items[1..] == [];
      assert ToValues(items) == [ToValue(items[0])];
      assert PrintAll(items) == Print(items[0]);
      assert PrintAll(items) + "]" + rest == Print(items[0]) + ("]" + rest);
    } else {
      var others := PrintAll(items[1..]) + "]" + rest;
      ReadPrintAll(items[1..], rest);
      ReadPrint(items[0], "," + others);
      ReadMore(Print(items[0]) + ("," + others), ToValue(items[0]), others, ToValues(items[1..]), rest);
      PrintMore(Print(items[0]), PrintAll(items[1..]), rest);
    }
  }

  /** The value of a printed item is read as the item. */
  lemma {:induction false} ItemOfToValue(x: Item)
    ensures ValueToItem(ToValue(x)) == Ok(x)
    decreases x, 0
  {
    match x
    case Data(bytes) => DecodePrefixedHex(bytes);
    case Array(items) => ItemsOfToValues(items);
  }

  lemma {:induction false} ItemsOfToValues(items: seq<Item>)
    ensures ValuesToItems(ToValues(items)) == Ok(items)
    decreases items, 1
  {
    if items != [] {
      ItemOfToValue(items[0]);
      ItemsOfToValues(items[1..]);
      ValuesToItemsCons(ToValue(items[0]), ToValues(items[1..]), items[0], items[1..]);
      assert [items[0]] + items[1..] == items;
    }
  }

  lemma ValuesToItemsCons(v: Value, vs: seq<Value>, x: Item, xs: seq<Item>)
    requires ValueToItem(v) == Ok(x) && ValuesToItems(vs) == Ok(xs)
    ensures ValuesToItems([v] + vs) == Ok([x] + xs)
  {
    assert ([v] + vs)[1..] == vs;
  }

  /** Printing, reading the text as JSON and converting the value gives the original item. */
  lemma TextRoundTrip(x: Item)
    ensures ReadValue(Print(x)) == Some((ToValue(x), ""))
    ensures ValueToItem(ToValue(x)) == Ok(x)
  {
    ReadPrint(x, "");
    assert Print(x) + "" == Print(x);
    ItemOfToValue(x);
  }

  /** Two items print the same text only if they are equal. */
  lemma PrintIsInjective(x: Item, y: Item)
    requires Print(x) == Print(y)
    ensures x == y
  {
    TextRoundTrip(x);
    TextRoundTrip(y);
  }

  /** A JSON number becomes the shortest big-endian form of the number, and nothing for zero. */
  lemma NumberToItem(n: Numbers.U256)
    ensures ValueToItem(Number(Numbers.Show(n, Numbers.Decimal))) == Ok(Data(BigEndian(n)))
    ensures FromBigEndian(BigEndian(n)) == n
  {
    Numbers.ReadShow(n, Numbers.Decimal);
    FromBigEndianInverse(n);
  }
}
