/**
 The typed codec between Solidity values and JSON values: serialization follows the value, parsing
 is directed by the type.
 */
module SolidityJson {
  import opened Wrappers
  import opened Bytes
  import opened Json
  import Numbers

  datatype SolType =
    | TBool
    | TInt(bits: nat)
    | TUint(bits: nat)
    | TFixedBytes(size: nat)
    | TAddress
    | TFunction
    | TBytes
    | TString
    | TArray(inner: SolType)
    | TFixedArray(inner: SolType, len: nat)
    | TTuple(types: seq<SolType>)
    | TStruct(name: string, props: seq<string>, types: seq<SolType>)

  datatype SolValue =
    | VBool(b: bool)
    | VInt(i: int, bits: nat)
    | VUint(n: nat, bits: nat)
    | VFixedBytes(word: seq<Byte>, size: nat)
    | VAddress(address: seq<Byte>)
    | VFunction(pointer: seq<Byte>)
    | VBytes(bytes: seq<Byte>)
    | VString(s: string)
    | VArray(values: seq<SolValue>)
    | VFixedArray(values: seq<SolValue>)
    | VTuple(values: seq<SolValue>)
    | VStruct(name: string, props: seq<string>, values: seq<SolValue>)

  datatype Error =
    | FunctionPointer | LengthMismatch | ExpectedOther | MissingField | BadText

  /**
   What foreign code decides: which strings are the text of a JSON object, and which letters of an
   address its checksum writes in upper case.
   */
  datatype Library = Library(
    parseObject: string -> Option<map<string, Value>>,
    upper: (seq<Byte>, nat) -> bool)

  /* ---------- Serializing ---------- */

  function ShowInt(i: int): (s: string)
  {
    if i < 0 then "-" + Numbers.Show(-i, Numbers.Decimal) else Numbers.Show(i, Numbers.Decimal)
  }

  function UpperCase(c: char): (r: char)
    ensures 'a' <= c <= 'f' || '0' <= c <= '9' ==> HexValue(r) == HexValue(c)
  {
    if 'a' <= c <= 'z' then c - 'a' + 'A' else c
  }

  /** Hexadecimal text with some of its letters in upper case. */
  function Recase(s: string, i: nat, upper: nat -> bool): (r: string)
    ensures |r| == |s|
    decreases |s|
  {
    if s == [] then []
    else [if upper(i) then UpperCase(s[0]) else s[0]] + Recase(s[1..], i + 1, upper)
  }

  function ShowAddress(lib: Library, address: seq<Byte>): (s: string)
  {
    "0x" + Recase(EncodeHex(address), 0, (i: nat) => lib.upper(address, i))
  }

  /** The fields of an object in order; a later field replaces an earlier one of the same name. */
  function Zip(props: seq<string>, values: seq<Value>): (m: map<string, Value>)
  {
    if props == [] || values == [] then map[]
    else map[props[0] := values[0]] + Zip(props[1..], values[1..])
  }

  function Serialize(lib: Library, v: SolValue): (r: Result<Value, Error>)
    decreases v, 0
  {
    match v
    case VBool(b) => Ok(Bool(b))
    case VString(s) =>
      var fields := lib.parseObject(s);
      if fields.Some? then Ok(Obj(fields.value)) else Ok(Str(s))
    case VBytes(bytes) => Ok(Str("0x" + EncodeHex(bytes)))
    case VFixedBytes(word, size) =>
      if size > |word| then Err(LengthMismatch) else Ok(Str("0x" + EncodeHex(word[..size])))
    case VInt(i, _) => Ok(Number(ShowInt(i)))
    case VUint(n, _) => Ok(Number(ShowInt(n)))
    case VAddress(address) => Ok(Str(ShowAddress(lib, address)))
    case VArray(values) => ArrOf(SerializeAll(lib, values))
    case VFixedArray(values) => ArrOf(SerializeAll(lib, values))
    case VTuple(values) => ArrOf(SerializeAll(lib, values))
    case VStruct(_, props, values) =>
      var vs := SerializeAll(lib, values);
      if vs.Err? then Err(vs.error) else Ok(Obj(Zip(props, vs.value)))
    case VFunction(_) => Err(FunctionPointer)
  }

  function ArrOf(vs: Result<seq<Value>, Error>): (r: Result<Value, Error>)
  {
    if vs.Err? then Err(vs.error) else Ok(Arr(vs.value))
  }

  function SerializeAll(lib: Library, vs: seq<SolValue>): (r: Result<seq<Value>, Error>)
    ensures r.Ok? ==> |r.value| == |vs|
    decreases vs, 1
  {
    if vs == [] then Ok([]) else
    var first := Serialize(lib, vs[0]);
    if first.Err? then Err(first.error) else
    var rest := SerializeAll(lib, vs[1..]);
    if rest.Err? then Err(rest.error) else Ok([first.value] + rest.value)
  }

  /* ---------- Parsing leaves ---------- */

  function ParseNat(s: string): (n: Option<nat>)
  {
    if s != [] && Numbers.AllDigits(s, Numbers.Decimal) then Some(Numbers.DigitsValue(s)) else None
  }

  function ParseDecimal(s: string): (i: Option<int>)
  {
    if s != [] && s[0] == '-' then
      var n := ParseNat(s[1..]);
      if n.Some? then Some(0 - n.value) else None
    else
      var n := ParseNat(s);
      if n.Some? then Some(n.value) else None
  }

  predicate InSigned(i: int, bits: nat)
  {
    bits > 0 && -(Pow2(bits - 1) as int) <= i < Pow2(bits - 1)
  }

  predicate InUnsigned(n: int, bits: nat)
  {
    0 <= n < Pow2(bits)
  }

  function Padding(n: nat): (bs: seq<Byte>)
    ensures |bs| == n
  {
    if n == 0 then [] else [0] + Padding(n - 1)
  }

  /** Text read as a value of an elementary type. */
  function CoerceStr(s: string, ty: SolType): (r: Option<SolValue>)
  {
    match ty
    case TBool => if s == "true" then Some(VBool(true)) else if s == "false" then Some(VBool(false)) else None
    case TInt(bits) =>
      var i := ParseDecimal(s);
      if i.Some? && InSigned(i.value, bits) then Some(VInt(i.value, bits)) else None
    case TUint(bits) =>
      var i := ParseDecimal(s);
      if i.Some? && InUnsigned(i.value, bits) then Some(VUint(i.value, bits)) else None
    case TFixedBytes(size) =>
      var bs := DecodeHex(s);
      if bs.Some? && |bs.value| == size && size <= 32
      then Some(VFixedBytes(bs.value + Padding(32 - size), size)) else None
    case TAddress =>
      var bs := DecodeHex(s);
      if bs.Some? && |bs.value| == 20 then Some(VAddress(bs.value)) else None
    case TFunction =>
      var bs := DecodeHex(s);
      if bs.Some? && |bs.value| == 24 then Some(VFunction(bs.value)) else None
    case TBytes =>
      var bs := DecodeHex(s);
      if bs.Some? then Some(VBytes(bs.value)) else None
    case TString => Some(VString(s))
    case _ => None
  }

  function LowerCase(s: string): (r: string)
  {
    if s == [] then []
    else [if 'A' <= s[0] <= 'Z' then s[0] - 'A' + 'a' else s[0]] + LowerCase(s[1..])
  }

  /** The more lenient parsers that are tried last; they accept further spellings of booleans. */
  function Fallback(s: string, ty: SolType): (r: Option<SolValue>)
  {
    if !ty.TBool? then None
    else if s == "1" || LowerCase(s) == "true" then Some(VBool(true))
    else if s == "0" || LowerCase(s) == "false" then Some(VBool(false))
    else None
  }

  function ParseText(s: string, ty: SolType): (r: Result<SolValue, Error>)
  {
    var v := CoerceStr(s, ty);
    if v.Some? then Ok(v.value) else
    var w := Fallback(s, ty);
    if w.Some? then Ok(w.value) else Err(BadText)
  }

  /** The text of a JSON string with its escapes, but without any quote character. */
  function Unquoted(s: string): (r: string)
  {
    if s == [] then [] else
    (if s[0] == '\"' then "\\"
     else if s[0] == '\\' then "\\\\"
     else if s[0] == '\n' then "\\n"
     else if s[0] == '\r' then "\\r"
     else if s[0] == '\t' then "\\t"
     else if s[0] == 8 as char then "\\b"
     else if s[0] == 12 as char then "\\f"
     else if s[0] < ' ' then "\\u00" + EncodeHex([s[0] as nat])
     else [s[0]])
    + Unquoted(s[1..])
  }

  function PlainText(v: Value): (s: string)
    requires !v.Arr? && !v.Obj?
  {
    match v
    case Null => "null"
    case Bool(b) => if b then "true" else "false"
    case Number(text) => text
    case Str(s) => Unquoted(s)
  }

  /* ---------- Parsing by type ---------- */

  function ParseAs(v: Value, ty: SolType): (r: Result<SolValue, Error>)
    decreases ty, 2, 0
  {
    if v.Arr? then ParseArray(v.items, ty)
    else if v.Obj? then ParseMap(v.fields, ty)
    else if v.Str? && ty.TString? then Ok(VString(v.s))
    else ParseText(PlainText(v), ty)
  }

  function ParseArray(items: seq<Value>, ty: SolType): (r: Result<SolValue, Error>)
    decreases ty, 1, 0
  {
    match ty
    case TTuple(types) =>
      if |items| != |types| then Err(LengthMismatch) else
      var vs := ParseEach(items, types);
      if vs.Err? then Err(vs.error) else Ok(VTuple(vs.value))
    case TArray(inner) =>
      var vs := ParseAll(items, inner);
      if vs.Err? then Err(vs.error) else Ok(VArray(vs.value))
    case TFixedArray(inner, len) =>
      if |items| != len then Err(LengthMismatch) else
      var vs := ParseAll(items, inner);
      if vs.Err? then Err(vs.error) else Ok(VFixedArray(vs.value))
    case _ => Err(ExpectedOther)
  }

  function ParseAll(items: seq<Value>, inner: SolType): (r: Result<seq<SolValue>, Error>)
    decreases inner, 3, |items|
  {
    if items == [] then Ok([]) else
    var first := ParseAs(items[0], inner);
    if first.Err? then Err(first.error) else
    var rest := ParseAll(items[1..], inner);
    if rest.Err? then Err(rest.error) else Ok([first.value] + rest.value)
  }

  function ParseEach(items: seq<Value>, types: seq<SolType>): (r: Result<seq<SolValue>, Error>)
    requires |items| == |types|
    decreases types, 3, 0
  {
    if items == [] then Ok([]) else
    var first := ParseAs(items[0], types[0]);
    if first.Err? then Err(first.error) else
    var rest := ParseEach(items[1..], types[1..]);
    if rest.Err? then Err(rest.error) else Ok([first.value] + rest.value)
  }

  function ParseMap(fields: map<string, Value>, ty: SolType): (r: Result<SolValue, Error>)
    decreases ty, 1, 0
  {
    if !ty.TStruct? then Err(ExpectedOther) else
    var vs := ParseFields(fields, ty.props, ty.types);
    if vs.Err? then Err(vs.error) else Ok(VStruct(ty.name, ty.props, vs.value))
  }

  function ParseFields(fields: map<string, Value>, props: seq<string>, types: seq<SolType>)
    : (r: Result<seq<SolValue>, Error>)
    decreases types, 3, 0
  {
    if props == [] || types == [] then Ok([])
    else if props[0] !in fields then Err(MissingField)
    else
      var first := ParseAs(fields[props[0]], types[0]);
      if first.Err? then Err(first.error) else
      var rest := ParseFields(fields, props[1..], types[1..]);
      if rest.Err? then Err(rest.error) else Ok([first.value] + rest.value)
  }

  function After(vs: seq<SolValue>, rest: Result<seq<SolValue>, Error>)
    : (r: Result<seq<SolValue>, Error>)
  {
    if rest.Err? then rest else Ok(vs + rest.value)
  }

  /** The loop over the fields of a struct type, pushing one value after the other. */
  method ParseJsonMap(fields: map<string, Value>, ty: SolType) returns (r: Result<SolValue, Error>)
    ensures r == ParseMap(fields, ty)
  {
    if !ty.TStruct? {
      return Err(ExpectedOther);
    }
    var count := if |ty.props| < |ty.types| then |ty.props| else |ty.types|;
    var values: seq<SolValue> := [];
    ghost var all := ParseFields(fields, ty.props, ty.types);
    assert all.Ok? ==> [] + all.value == all.value;
    for i := 0 to count
      invariant all == After(values, ParseFields(fields, ty.props[i..], ty.types[i..]))
    {
      assert ty.props[i..][1..] == ty.props[i + 1..] && ty.types[i..][1..] == ty.types[i + 1..];
      if ty.props[i] !in fields {
        return Err(MissingField);
      }
      var v := ParseAs(fields[ty.props[i]], ty.types[i]);
      if v.Err? {
        return Err(v.error);
      }
      ghost var rest := ParseFields(fields, ty.props[i + 1..], ty.types[i + 1..]);
      if rest.Ok? { Assoc(values, [v.value], rest.value); }
      values := values + [v.value];
    }
    assert values + [] == values;
    return Ok(VStruct(ty.name, ty.props, values));
  }

  /* ---------- Values of a type ---------- */

  predicate Distinct(props: seq<string>)
  {
    forall i, j :: 0 <= i < j < |props| ==> props[i] != props[j]
  }

  predicate HasType(v: SolValue, ty: SolType)
    decreases v, 0
  {
    match (v, ty)
    case (VBool(_), TBool) => true
    case (VInt(i, bits), TInt(bits')) => bits == bits' && InSigned(i, bits)
    case (VUint(n, bits), TUint(bits')) => bits == bits' && InUnsigned(n, bits)
    case (VFixedBytes(word, size), TFixedBytes(size')) =>
      size == size' && size <= 32 && |word| == 32
    case (VAddress(address), TAddress) => |address| == 20
    case (VFunction(pointer), TFunction) => |pointer| == 24
    case (VBytes(_), TBytes) => true
    case (VString(_), TString) => true
    case (VArray(values), TArray(inner)) => AllHaveType(values, inner)
    case (VFixedArray(values), TFixedArray(inner, len)) =>
      |values| == len && AllHaveType(values, inner)
    case (VTuple(values), TTuple(types)) => HaveTypes(values, types)
    case (VStruct(name, props, values), TStruct(name', props', types)) =>
      name == name' && props == props' && |props| == |types| && Distinct(props)
      && HaveTypes(values, types)
    case _ => false
  }

  predicate AllHaveType(vs: seq<SolValue>, ty: SolType)
    decreases vs, 1
  {
    vs == [] || (HasType(vs[0], ty) && AllHaveType(vs[1..], ty))
  }

  predicate HaveTypes(vs: seq<SolValue>, types: seq<SolType>)
    decreases vs, 1
  {
    |vs| == |types| && (vs == [] || (HasType(vs[0], types[0]) && HaveTypes(vs[1..], types[1..])))
  }

  /**
   The value holds no function pointer, no string that is itself the text of a JSON object, and no
   fixed bytes with anything but zeros after their size.
   */
  predicate Faithful(lib: Library, v: SolValue)
    decreases v, 0
  {
    match v
    case VString(s) => lib.parseObject(s).None?
    case VFixedBytes(word, size) => size <= |word| && word[size..] == Padding(|word| - size)
    case VFunction(_) => false
    case VArray(values) => AllFaithful(lib, values)
    case VFixedArray(values) => AllFaithful(lib, values)
    case VTuple(values) => AllFaithful(lib, values)
    case VStruct(_, _, values) => AllFaithful(lib, values)
    case _ => true
  }

  predicate AllFaithful(lib: Library, vs: seq<SolValue>)
    decreases vs, 1
  {
    vs == [] || (Faithful(lib, vs[0]) && AllFaithful(lib, vs[1..]))
  }

  /** Serializing succeeds and parsing the result by the type gives the value back. */
  predicate RoundTrips(lib: Library, v: SolValue, ty: SolType)
  {
    var json := Serialize(lib, v);
    json.Ok? && ParseAs(json.value, ty) == Ok(v)
  }

  /* ---------- Leaves ---------- */

  predicate PlainChars(s: string)
  {
    forall i :: 0 <= i < |s| ==> '0' <= s[i] <= '9' || 'a' <= s[i] <= 'z' || 'A' <= s[i] <= 'Z'
  }

  lemma {:induction false} UnquotedPlain(s: string)
    requires PlainChars(s)
    ensures Unquoted(s) == s
  {
    if s != [] {
      UnquotedPlain(s[1..]);
      assert [s[0]] + s[1..] == s;
    }
  }

  lemma HexPlainChars(bs: seq<Byte>)
    ensures PlainChars("0x" + EncodeHex(bs))
  {
    var s := "0x" + EncodeHex(bs);
    forall i | 2 <= i < |s|
      ensures '0' <= s[i] <= '9' || 'a' <= s[i] <= 'z'
    {
      EncodeHexPlain(bs, i - 2);
    }
  }

  lemma HexOf(bs: seq<Byte>) returns (text: string)
    ensures text == "0x" + EncodeHex(bs)
    ensures DecodeHex(Unquoted(text)) == Some(bs)
  {
    text := "0x" + EncodeHex(bs);
    HexPlainChars(bs);
    UnquotedPlain(text);
    DecodePrefixedHex(bs);
  }

  predicate LowerHex(s: string)
  {
    forall i :: 0 <= i < |s| ==> '0' <= s[i] <= '9' || 'a' <= s[i] <= 'f'
  }

  lemma {:induction false} RecasePlain(s: string, k: nat, upper: nat -> bool)
    requires LowerHex(s)
    ensures PlainChars(Recase(s, k, upper))
    decreases |s|
  {
    if s != [] {
      RecasePlain(s[1..], k + 1, upper);
    }
  }

  lemma {:induction false} DecodeRecased(s: string, k: nat, upper: nat -> bool)
    requires LowerHex(s)
    ensures DecodeHexDigits(Recase(s, k, upper)) == DecodeHexDigits(s)
    decreases |s|
  {
    if |s| >= 2 {
      var r := Recase(s, k, upper);
      assert s[1..][1..] == s[2..];
      assert r[1..] == Recase(s[1..], k + 1, upper);
      assert r[2..] == Recase(s[2..], k + 2, upper);
      DecodeRecased(s[2..], k + 2, upper);
    }
  }

  lemma AddressText(lib: Library, address: seq<Byte>)
    ensures DecodeHex(Unquoted(ShowAddress(lib, address))) == Some(address)
  {
    var upper := (i: nat) => lib.upper(address, i);
    var hex := EncodeHex(address);
    var s := ShowAddress(lib, address);
    forall i | 0 <= i < |hex|
      ensures '0' <= hex[i] <= '9' || 'a' <= hex[i] <= 'f'
    {
      EncodeHexPlain(address, i);
    }
    RecasePlain(hex, 0, upper);
    assert s == "0x" + Recase(hex, 0, upper);
    assert PlainChars(s);
    UnquotedPlain(s);
    assert s[2..] == Recase(hex, 0, upper);
    DecodeRecased(hex, 0, upper);
    DecodeEncodeHex(address);
  }

  lemma ReadShowInt(i: int)
    ensures ParseDecimal(ShowInt(i)) == Some(i)
  {
    var m := if i < 0 then -i else i;
    Numbers.ShowValue(m);
    var digits := Numbers.Show(m, Numbers.Decimal);
    assert Numbers.IsDigit(digits[0], Numbers.Decimal);
    assert ("-" + digits)[1..] == digits;
  }

  /** Hexadecimal text parsed as the types that are written in hexadecimal. */
  /** A JSON string that holds a readable text of an elementary type. */
  lemma ParseStrAs(text: string, plain: string, ty: SolType, v: SolValue)
    requires Unquoted(text) == plain && !ty.TString? && CoerceStr(plain, ty) == Some(v)
    ensures ParseAs(Str(text), ty) == Ok(v)
  {
    assert PlainText(Str(text)) == plain;
  }

  lemma ParseHexText(text: string, bs: seq<Byte>)
    requires DecodeHex(Unquoted(text)) == Some(bs)
    ensures ParseAs(Str(text), TBytes) == Ok(VBytes(bs))
    ensures |bs| == 20 ==> ParseAs(Str(text), TAddress) == Ok(VAddress(bs))
  {
    ParseStrAs(text, Unquoted(text), TBytes, VBytes(bs));
    if |bs| == 20 {
      ParseStrAs(text, Unquoted(text), TAddress, VAddress(bs));
    }
  }

  lemma ParseFixedHexText(text: string, bs: seq<Byte>, size: nat)
    requires DecodeHex(Unquoted(text)) == Some(bs) && |bs| == size <= 32
    ensures ParseAs(Str(text), TFixedBytes(size)) == Ok(VFixedBytes(bs + Padding(32 - size), size))
  {
    ParseStrAs(text, Unquoted(text), TFixedBytes(size), VFixedBytes(bs + Padding(32 - size), size));
  }

  lemma FixedBytesRoundTrip(lib: Library, word: seq<Byte>, size: nat)
    requires size <= 32 && |word| == 32
    ensures RoundTrips(lib, VFixedBytes(word, size), TFixedBytes(size)) <==>
            word[size..] == Padding(32 - size)
  {
    var kept := word[..size];
    var text := HexOf(kept);
    ParseFixedHexText(text, kept, size);
    assert Serialize(lib, VFixedBytes(word, size)) == Ok(Str(text));
    SamePadding(word, size);
  }

  lemma SamePadding(word: seq<Byte>, size: nat)
    requires size <= |word| == 32
    ensures word[..size] + Padding(32 - size) == word <==> word[size..] == Padding(32 - size)
  {
    assert word == word[..size] + word[size..];
    assert (word[..size] + Padding(32 - size))[size..] == Padding(32 - size);
  }

  /** The text of a number, which is read back as the number. */
  lemma IntText(i: int) returns (text: string)
    ensures text == ShowInt(i) && ParseDecimal(text) == Some(i)
  {
    text := ShowInt(i);
    ReadShowInt(i);
  }

  lemma IntRoundTrip(lib: Library, i: int, bits: nat)
    requires InSigned(i, bits)
    ensures RoundTrips(lib, VInt(i, bits), TInt(bits))
  {
    var text := IntText(i);
    assert CoerceStr(text, TInt(bits)) == Some(VInt(i, bits));
  }

  lemma UintRoundTrip(lib: Library, n: nat, bits: nat)
    requires InUnsigned(n, bits)
    ensures RoundTrips(lib, VUint(n, bits), TUint(bits))
  {
    var text := IntText(n);
    assert CoerceStr(text, TUint(bits)) == Some(VUint(n, bits));
  }

  lemma BytesRoundTrip(lib: Library, bytes: seq<Byte>)
    ensures RoundTrips(lib, VBytes(bytes), TBytes)
  {
    var text := HexOf(bytes);
    ParseHexText(text, bytes);
    assert Serialize(lib, VBytes(bytes)) == Ok(Str(text));
  }

  lemma AddressRoundTrip(lib: Library, address: seq<Byte>)
    requires |address| == 20
    ensures RoundTrips(lib, VAddress(address), TAddress)
  {
    AddressText(lib, address);
    ParseHexText(ShowAddress(lib, address), address);
  }

  lemma BoolRoundTrip(lib: Library, b: bool)
    ensures RoundTrips(lib, VBool(b), TBool)
  {
    assert CoerceStr(PlainText(Bool(b)), TBool) == Some(VBool(b));
  }

  lemma StringRoundTrip(lib: Library, text: string)
    ensures RoundTrips(lib, VString(text), TString) <==> lib.parseObject(text).None?
  {}

  lemma PointerNeverSerializes(lib: Library, pointer: seq<Byte>, ty: SolType)
    ensures !RoundTrips(lib, VFunction(pointer), ty)
  {}

  predicate Leaf(v: SolValue)
  {
    !v.VArray? && !v.VFixedArray? && !v.VTuple? && !v.VStruct?
  }

  /** The one type an elementary value can have. */
  function LeafType(v: SolValue): (ty: SolType)
    requires Leaf(v)
  {
    match v
    case VBool(_) => TBool
    case VInt(_, bits) => TInt(bits)
    case VUint(_, bits) => TUint(bits)
    case VFixedBytes(_, size) => TFixedBytes(size)
    case VAddress(_) => TAddress
    case VFunction(_) => TFunction
    case VBytes(_) => TBytes
    case VString(_) => TString
  }

  /** The value is in the range of its type. */
  predicate LeafFits(v: SolValue)
    requires Leaf(v)
  {
    match v
    case VInt(i, bits) => InSigned(i, bits)
    case VUint(n, bits) => InUnsigned(n, bits)
    case VFixedBytes(word, size) => size <= 32 && |word| == 32
    case VAddress(address) => |address| == 20
    case _ => true
  }

  lemma LeafHasOneType(v: SolValue, ty: SolType)
    requires HasType(v, ty) && Leaf(v)
    ensures ty == LeafType(v) && LeafFits(v)
  {}

  lemma LeafRoundTrips(lib: Library, v: SolValue)
    requires Leaf(v) && LeafFits(v)
    ensures RoundTrips(lib, v, LeafType(v)) <==> Faithful(lib, v)
  {
    match v
    case VInt(i, bits) => IntRoundTrip(lib, i, bits);
    case VUint(n, bits) => UintRoundTrip(lib, n, bits);
    case VBytes(bytes) => BytesRoundTrip(lib, bytes);
    case VAddress(address) => AddressRoundTrip(lib, address);
    case VFixedBytes(word, size) => FixedBytesRoundTrip(lib, word, size);
    case VBool(b) => BoolRoundTrip(lib, b);
    case VString(text) => StringRoundTrip(lib, text);
    case VFunction(pointer) => PointerNeverSerializes(lib, pointer, TFunction);
  }

  lemma LeafRoundTrip(lib: Library, v: SolValue, ty: SolType)
    requires HasType(v, ty) && Leaf(v)
    ensures RoundTrips(lib, v, ty) <==> Faithful(lib, v)
  {
    LeafHasOneType(v, ty);
    LeafRoundTrips(lib, v);
  }

  /* ---------- Nesting ---------- */

  /** All values of a list serialize, and the results are parsed back as the list. */
  predicate AllRoundTrip(lib: Library, vs: seq<SolValue>, ty: SolType)
  {
    var json := SerializeAll(lib, vs);
    json.Ok? && ParseAll(json.value, ty) == Ok(vs)
  }

  predicate EachRoundTrips(lib: Library, vs: seq<SolValue>, types: seq<SolType>)
    requires |vs| == |types|
  {
    var json := SerializeAll(lib, vs);
    json.Ok? && ParseEach(json.value, types) == Ok(vs)
  }

  lemma ConsEqual<T>(x: T, xs: seq<T>, s: seq<T>)
    requires s != []
    ensures [x] + xs == s <==> x == s[0] && xs == s[1..]
  {
    assert s == [s[0]] + s[1..];
    if [x] + xs == s {
      assert ([x] + xs)[1..] == xs;
    }
  }

  lemma SerializeAllCons(lib: Library, vs: seq<SolValue>)
    requires vs != [] && SerializeAll(lib, vs).Ok?
    ensures Serialize(lib, vs[0]).Ok? && SerializeAll(lib, vs[1..]).Ok?
    ensures SerializeAll(lib, vs).value[0] == Serialize(lib, vs[0]).value
    ensures SerializeAll(lib, vs).value[1..] == SerializeAll(lib, vs[1..]).value
  {}

  lemma AllRoundTripCons(lib: Library, vs: seq<SolValue>, ty: SolType)
    requires vs != []
    ensures AllRoundTrip(lib, vs, ty) <==>
            RoundTrips(lib, vs[0], ty) && AllRoundTrip(lib, vs[1..], ty)
  {
    var json := SerializeAll(lib, vs);
    if json.Ok? {
      SerializeAllCons(lib, vs);
      var first, rest := ParseAs(json.value[0], ty), ParseAll(json.value[1..], ty);
      if first.Ok? && rest.Ok? {
        ConsEqual(first.value, rest.value, vs);
      }
    }
  }

  lemma EachRoundTripsCons(lib: Library, vs: seq<SolValue>, types: seq<SolType>)
    requires vs != [] && |vs| == |types|
    ensures EachRoundTrips(lib, vs, types) <==>
            RoundTrips(lib, vs[0], types[0]) && EachRoundTrips(lib, vs[1..], types[1..])
  {
    var json := SerializeAll(lib, vs);
    if json.Ok? {
      SerializeAllCons(lib, vs);
      var first, rest := ParseAs(json.value[0], types[0]), ParseEach(json.value[1..], types[1..]);
      if first.Ok? && rest.Ok? {
        ConsEqual(first.value, rest.value, vs);
      }
    }
  }

  lemma {:induction false} ZipHas(props: seq<string>, values: seq<Value>, i: nat)
    requires |props| == |values| && Distinct(props) && i < |props|
    ensures props[i] in Zip(props, values) && Zip(props, values)[props[i]] == values[i]
  {
    if i == 0 {
      ZipKeys(props[1..], values[1..], props[0]);
    } else {
      ZipHas(props[1..], values[1..], i - 1);
    }
  }

  lemma {:induction false} ZipKeys(props: seq<string>, values: seq<Value>, key: string)
    requires forall i :: 0 <= i < |props| ==> props[i] != key
    ensures key !in Zip(props, values)
  {
    if props != [] && values != [] {
      ZipKeys(props[1..], values[1..], key);
    }
  }

  /** Looking up the fields one by one in an object that holds them gives them in order. */
  lemma {:induction false} FieldsAreEach(fields: map<string, Value>, props: seq<string>,
                                         values: seq<Value>, types: seq<SolType>)
    requires |props| == |values| == |types|
    requires forall i :: 0 <= i < |props| ==> props[i] in fields && fields[props[i]] == values[i]
    ensures ParseFields(fields, props, types) == ParseEach(values, types)
  {
    if props != [] {
      assert forall i :: 0 <= i < |props[1..]| ==>
               props[1..][i] == props[i + 1] && values[1..][i] == values[i + 1];
      FieldsAreEach(fields, props[1..], values[1..], types[1..]);
    }
  }

  lemma StructIsEach(lib: Library, name: string, props: seq<string>, values: seq<SolValue>,
                     types: seq<SolType>)
    requires |props| == |values| == |types| && Distinct(props)
    ensures RoundTrips(lib, VStruct(name, props, values), TStruct(name, props, types)) <==>
            EachRoundTrips(lib, values, types)
  {
    var json := SerializeAll(lib, values);
    if json.Ok? {
      forall i | 0 <= i < |props|
        ensures props[i] in Zip(props, json.value) && Zip(props, json.value)[props[i]] == json.value[i]
      {
        ZipHas(props, json.value, i);
      }
      FieldsAreEach(Zip(props, json.value), props, json.value, types);
      assert ParseAs(Obj(Zip(props, json.value)), TStruct(name, props, types)) ==
             ParseMap(Zip(props, json.value), TStruct(name, props, types));
    }
  }

  lemma ArrayIsAll(lib: Library, values: seq<SolValue>, inner: SolType)
    ensures RoundTrips(lib, VArray(values), TArray(inner)) <==> AllRoundTrip(lib, values, inner)
    ensures RoundTrips(lib, VFixedArray(values), TFixedArray(inner, |values|)) <==>
            AllRoundTrip(lib, values, inner)
  {
    var json := SerializeAll(lib, values);
    if json.Ok? {
      assert ParseAs(Arr(json.value), TArray(inner)) == ParseArray(json.value, TArray(inner));
      assert ParseAs(Arr(json.value), TFixedArray(inner, |values|)) ==
             ParseArray(json.value, TFixedArray(inner, |values|));
    }
  }

  lemma TupleIsEach(lib: Library, values: seq<SolValue>, types: seq<SolType>)
    requires |values| == |types|
    ensures RoundTrips(lib, VTuple(values), TTuple(types)) <==> EachRoundTrips(lib, values, types)
  {
    var json := SerializeAll(lib, values);
    if json.Ok? {
      assert ParseAs(Arr(json.value), TTuple(types)) == ParseArray(json.value, TTuple(types));
    }
  }

  lemma HaveTypesLength(vs: seq<SolValue>, types: seq<SolType>)
    requires HaveTypes(vs, types)
    ensures |vs| == |types|
  {}

  /**
   A value of a type survives the trip through JSON if and only if it is faithful, through any
   nesting of arrays, tuples and structs.
   */
  lemma {:induction false} TypedRoundTrip(lib: Library, v: SolValue, ty: SolType)
    requires HasType(v, ty)
    ensures RoundTrips(lib, v, ty) <==> Faithful(lib, v)
    decreases v, 0
  {
    match v
    case VArray(values) =>
      TypedRoundTripAll(lib, values, ty.inner);
      ArrayIsAll(lib, values, ty.inner);
    case VFixedArray(values) =>
      TypedRoundTripAll(lib, values, ty.inner);
      ArrayIsAll(lib, values, ty.inner);
    case VTuple(values) =>
      HaveTypesLength(values, ty.types);
      TypedRoundTripEach(lib, values, ty.types);
      TupleIsEach(lib, values, ty.types);
    case VStruct(name, props, values) =>
      HaveTypesLength(values, ty.types);
      TypedRoundTripEach(lib, values, ty.types);
      StructIsEach(lib, name, props, values, ty.types);
    case _ => LeafRoundTrip(lib, v, ty);
  }

  lemma {:induction false} TypedRoundTripAll(lib: Library, vs: seq<SolValue>, ty: SolType)
    requires AllHaveType(vs, ty)
    ensures AllRoundTrip(lib, vs, ty) <==> AllFaithful(lib, vs)
    decreases vs, 1
  {
    if vs != [] {
      TypedRoundTrip(lib, vs[0], ty);
      TypedRoundTripAll(lib, vs[1..], ty);
      AllRoundTripCons(lib, vs, ty);
    }
  }

  lemma {:induction false} TypedRoundTripEach(lib: Library, vs: seq<SolValue>, types: seq<SolType>)
    requires HaveTypes(vs, types)
    ensures EachRoundTrips(lib, vs, types) <==> AllFaithful(lib, vs)
    decreases vs, 1
  {
    if vs != [] {
      TypedRoundTrip(lib, vs[0], types[0]);
      TypedRoundTripEach(lib, vs[1..], types[1..]);
      EachRoundTripsCons(lib, vs, types);
    }
  }
}
