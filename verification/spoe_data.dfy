/**
 * Typed data of the Stream Processing Offload Protocol (HAProxy SPOE,
 * section 3.1 "Data types"): one type byte, whose low nibble is the type
 * code and whose high nibble carries flags, followed by the value.
 *
 * The variable-length integer codec and `IPAddress.Parse` are foreign and
 * become parameters; base64 and decimal rendering for `ToString` too.
 */
module SpoeData {
  import opened Wrappers
  import opened Bytes

  /** The SPOE type codes. */
  const NullType: byte := 0
  const BooleanType: byte := 1
  const Int32Type: byte := 2
  const Uint32Type: byte := 3
  const Int64Type: byte := 4
  const Uint64Type: byte := 5
  const Ipv4Type: byte := 6
  const Ipv6Type: byte := 7
  const StringType: byte := 8
  const BinaryType: byte := 9

  /** The replacement byte of the ASCII encoder, `'?'`. */
  const QuestionMark: byte := 0x3F

  /**
   * A typed value. The source pairs a `DataType` with an untyped object; here
   * each type carries a value of its own kind. `Unknown` is a `DataType`
   * outside the ten protocol types.
   */
  datatype TypedData =
    | Null
    | Boolean(b: bool)
    | Int32(i: int)
    | Uint32(u: nat)
    | Int64(l: int)
    | Uint64(ul: nat)
    | Ipv4(ipv4: string)
    | Ipv6(ipv6: string)
    | Str(s: string)
    | Binary(bytes: seq<byte>)
    | Unknown(code: int)

  function TypeCode(d: TypedData): (r: Option<byte>)
    ensures r.None? <==> d.Unknown?
  {
    match d
    case Null => Some(NullType)
    case Boolean(_) => Some(BooleanType)
    case Int32(_) => Some(Int32Type)
    case Uint32(_) => Some(Uint32Type)
    case Int64(_) => Some(Int64Type)
    case Uint64(_) => Some(Uint64Type)
    case Ipv4(_) => Some(Ipv4Type)
    case Ipv6(_) => Some(Ipv6Type)
    case Str(_) => Some(StringType)
    case Binary(_) => Some(BinaryType)
    case Unknown(_) => None
  }

  datatype EncodeError = UnimplementedType(code: int) | InvalidAddress(text: string)

  /** The foreign encoders: signed and unsigned variable-length integers, and address parsing. */
  datatype Codecs = Codecs(
    varInt: int -> seq<byte>,
    varUint: nat -> seq<byte>,
    parseAddress: string -> Option<seq<byte>>)

  /** `Encoding.ASCII`: every character outside 7-bit ASCII becomes `'?'`. */
  function Ascii(s: string): (r: seq<byte>)
    ensures |r| == |s|
    ensures forall i :: 0 <= i < |s| ==> (s[i] as int < 0x80 ==> r[i] as int == s[i] as int) && (s[i] as int >= 0x80 ==> r[i] == QuestionMark)
  {
    seq(|s|, i requires 0 <= i < |s| => if s[i] as int < 0x80 then s[i] as int as byte else QuestionMark)
  }

  /** `string.Length`: the number of UTF-16 code units, two for a character beyond the basic plane. */
  function Utf16Length(s: string): (r: nat)
    ensures r >= |s|
  {
    if |s| == 0 then 0 else (if s[0] as int > 0xFFFF then 2 else 1) + Utf16Length(s[1..])
  }

  /** The string value as the source writes it: the prefix counts UTF-16 code units. */
  function StringValueAsWritten(codecs: Codecs, s: string): seq<byte> {
    codecs.varInt(Utf16Length(s)) + Ascii(s)
  }

  /** The string value with the prefix counting the bytes that follow. */
  function StringValue(codecs: Codecs, s: string): seq<byte> {
    codecs.varInt(|Ascii(s)|) + Ascii(s)
  }

  /** No character lies beyond the basic plane, so UTF-16 needs one unit per character. */
  predicate BasicPlane(s: string) {
    forall i :: 0 <= i < |s| ==> s[i] as int <= 0xFFFF
  }

  /** `string.Length` equals the number of characters exactly for basic-plane strings. */
  lemma {:induction false} Utf16LengthBasicPlane(s: string)
    ensures Utf16Length(s) == |s| <==> BasicPlane(s)
  {
    if |s| > 0 {
      Utf16LengthBasicPlane(s[1..]);
      assert Utf16Length(s) == (if s[0] as int > 0xFFFF then 2 else 1) + Utf16Length(s[1..]);
      if BasicPlane(s[1..]) && s[0] as int <= 0xFFFF {
        forall i | 0 <= i < |s|
          ensures s[i] as int <= 0xFFFF
        {
          if i > 0 { assert s[i] == s[1..][i - 1]; }
        }
      }
      if BasicPlane(s) {
        forall i | 0 <= i < |s| - 1
          ensures s[1..][i] as int <= 0xFFFF
        {
          assert s[1..][i] == s[i + 1];
        }
      }
    }
  }

  /**
   * `TypedData.Bytes`, as written: a string's prefix is its UTF-16 length
   * (see `StringValueAsWritten`).
   */
  function Encode(codecs: Codecs, d: TypedData): (r: Result<seq<byte>, EncodeError>)
    ensures d.Unknown? <==> r.Failure? && r.error.UnimplementedType?
    ensures d.Unknown? ==> r == Failure(UnimplementedType(d.code))
    ensures d.Boolean? ==> r == Success([if d.b then 0x11 else 0x01])
    ensures r.Success? && !d.Boolean? ==> |r.value| >= 1 && Some(r.value[0]) == TypeCode(d)
    ensures d.Null? ==> r == Success([NullType])
    ensures d.Binary? ==> r == Success([BinaryType] + (codecs.varInt(|d.bytes|) + d.bytes))
    ensures d.Str? ==> r == Success([StringType] + StringValueAsWritten(codecs, d.s))
    ensures (d.Int32? ==> r == Success([Int32Type] + codecs.varInt(d.i))) && (d.Int64? ==> r == Success([Int64Type] + codecs.varInt(d.l)))
    ensures (d.Uint32? ==> r == Success([Uint32Type] + codecs.varUint(d.u))) && (d.Uint64? ==> r == Success([Uint64Type] + codecs.varUint(d.ul)))
    ensures d.Ipv4? ==> r == (match codecs.parseAddress(d.ipv4) case Some(a) => Success([Ipv4Type] + a) case None => Failure(InvalidAddress(d.ipv4)))
    ensures d.Ipv6? ==> r == (match codecs.parseAddress(d.ipv6) case Some(a) => Success([Ipv6Type] + a) case None => Failure(InvalidAddress(d.ipv6)))
  {
    match d
    case Boolean(b) => Success([(if b then 1 else 0) * 0x10 + BooleanType])
    case Null => Success([NullType])
    case Binary(bytes) => Success([BinaryType] + (codecs.varInt(|bytes|) + bytes))
    case Int32(i) => Success([Int32Type] + codecs.varInt(i))
    case Int64(l) => Success([Int64Type] + codecs.varInt(l))
    case Uint32(u) => Success([Uint32Type] + codecs.varUint(u))
    case Uint64(ul) => Success([Uint64Type] + codecs.varUint(ul))
    case Ipv4(text) => (match codecs.parseAddress(text) case Some(a) => Success([Ipv4Type] + a) case None => Failure(InvalidAddress(text)))
    case Ipv6(text) => (match codecs.parseAddress(text) case Some(a) => Success([Ipv6Type] + a) case None => Failure(InvalidAddress(text)))
    case Str(s) => Success([StringType] + StringValueAsWritten(codecs, s))
    case Unknown(code) => Failure(UnimplementedType(code))
  }

  /** `TypedData.Bytes` with the string prefix counting the bytes that follow. */
  function EncodeCorrected(codecs: Codecs, d: TypedData): (r: Result<seq<byte>, EncodeError>)
    ensures d.Str? ==> r == Success([StringType] + StringValue(codecs, d.s))
    ensures !d.Str? ==> r == Encode(codecs, d)
  {
    if d.Str? then Success([StringType] + StringValue(codecs, d.s)) else Encode(codecs, d)
  }

  /** The type code and flags of a type byte, as a reader splits it. */
  function SplitTypeByte(b: byte): (byte, byte) {
    (b % 0x10, b / 0x10)
  }

  /**
   * Every encoding starts with a byte whose low nibble is the type code; the
   * flags nibble is 1 exactly for `true` and 0 otherwise.
   */
  lemma TypeByteRoundTrip(codecs: Codecs, d: TypedData)
    requires Encode(codecs, d).Success?
    ensures var (code, flags) := SplitTypeByte(Encode(codecs, d).value[0]);
            Some(code) == TypeCode(d) && (flags == 1 <==> d == Boolean(true)) && (flags == 0 <==> d != Boolean(true))
  {
  }

  /** A decoder for the variable-length integers: the value and how many bytes it took. */
  ghost predicate DecodesVarInt(codecs: Codecs, decode: seq<byte> -> Option<(int, nat)>) {
    forall n: int, rest: seq<byte> ::
      decode(codecs.varInt(n) + rest) == Some((n, |codecs.varInt(n)|))
  }

  /** Reads a length-prefixed byte string after the type byte of the given type. */
  function DecodePrefixed(decode: seq<byte> -> Option<(int, nat)>, typeCode: byte, bs: seq<byte>): Option<seq<byte>> {
    if |bs| == 0 || bs[0] != typeCode then None
    else match decode(bs[1..])
      case None => None
      case Some((n, used)) =>
        if 0 <= n && 1 + used + n <= |bs| then Some(bs[1 + used .. 1 + used + n]) else None
  }

  /** The prefix of a binary value lets a reader recover exactly the bytes, whatever follows. */
  lemma BinaryRoundTrip(codecs: Codecs, decode: seq<byte> -> Option<(int, nat)>, bytes: seq<byte>, rest: seq<byte>)
    requires DecodesVarInt(codecs, decode)
    ensures DecodePrefixed(decode, BinaryType, Encode(codecs, Binary(bytes)).value + rest) == Some(bytes)
  {
    var bs := Encode(codecs, Binary(bytes)).value + rest;
    assert bs[1..] == codecs.varInt(|bytes|) + (bytes + rest);
    var used := |codecs.varInt(|bytes|)|;
    assert bs[1 + used .. 1 + used + |bytes|] == bytes;
  }

  /** With the corrected prefix, a reader recovers the ASCII bytes of any string. */
  lemma StringRoundTrip(codecs: Codecs, decode: seq<byte> -> Option<(int, nat)>, s: string, rest: seq<byte>)
    requires DecodesVarInt(codecs, decode)
    ensures DecodePrefixed(decode, StringType, EncodeCorrected(codecs, Str(s)).value + rest) == Some(Ascii(s))
  {
    var bs := EncodeCorrected(codecs, Str(s)).value + rest;
    assert bs[1..] == codecs.varInt(|Ascii(s)|) + (Ascii(s) + rest);
    var used := |codecs.varInt(|Ascii(s)|)|;
    assert bs[1 + used .. 1 + used + |s|] == Ascii(s);
  }

  /**
   * As written, a string with a character beyond the basic plane announces
   * one byte more than it carries, so a reader cannot recover it.
   */
  lemma StringPrefixAsWrittenOverstates(codecs: Codecs, decode: seq<byte> -> Option<(int, nat)>)
    requires DecodesVarInt(codecs, decode)
    ensures var s := "\U{1F600}";
            Utf16Length(s) == 2 && |Ascii(s)| == 1
            && DecodePrefixed(decode, StringType, [StringType] + StringValueAsWritten(codecs, s)) == None
  {
    var s := "\U{1F600}";
    assert Utf16Length(s) == 2 + Utf16Length(s[1..]);
    var bs := [StringType] + StringValueAsWritten(codecs, s);
    assert bs[1..] == codecs.varInt(2) + Ascii(s);
  }

  /** As written, the string encoding reads back for every basic-plane string. */
  lemma StringRoundTripAsWritten(codecs: Codecs, decode: seq<byte> -> Option<(int, nat)>, s: string, rest: seq<byte>)
    requires DecodesVarInt(codecs, decode)
    requires BasicPlane(s)
    ensures DecodePrefixed(decode, StringType, Encode(codecs, Str(s)).value + rest) == Some(Ascii(s))
  {
    Utf16LengthBasicPlane(s);
    assert Encode(codecs, Str(s)) == EncodeCorrected(codecs, Str(s));
    StringRoundTrip(codecs, decode, s, rest);
  }

  /**
   * The written and the corrected encodings differ exactly on strings with
   * a character beyond the basic plane.
   */
  lemma EncodingsAgreeOnBasicPlane(codecs: Codecs, decode: seq<byte> -> Option<(int, nat)>, d: TypedData)
    requires DecodesVarInt(codecs, decode)
    ensures Encode(codecs, d) == EncodeCorrected(codecs, d) <==> (d.Str? ==> BasicPlane(d.s))
  {
    if d.Str? {
      var s := d.s;
      Utf16LengthBasicPlane(s);
      if Encode(codecs, d) == EncodeCorrected(codecs, d) {
        var a := codecs.varInt(Utf16Length(s));
        var b := codecs.varInt(|Ascii(s)|);
        assert [StringType] + (a + Ascii(s)) == [StringType] + (b + Ascii(s));
        assert a == ([StringType] + (a + Ascii(s)))[1..|a| + 1];
        assert b == ([StringType] + (b + Ascii(s)))[1..|b| + 1];
        assert a == b;
        assert decode(a + []) == Some((Utf16Length(s), |a|));
        assert decode(b + []) == Some((|Ascii(s)|, |b|));
      }
    }
  }

  /** Renderers used by `ToString`: base64 and invariant decimal. */
  datatype Renderers = Renderers(base64: seq<byte> -> string, decimal: int -> string)

  function IntegerValue(d: TypedData): int
    requires d.Int32? || d.Int64? || d.Uint32? || d.Uint64?
  {
    if d.Int32? then d.i else if d.Int64? then d.l else if d.Uint32? then d.u else d.ul
  }

  /** `TypedData.ToString`. */
  function ToString(renderers: Renderers, d: TypedData): (r: string)
    ensures d.Boolean? ==> r == (if d.b then "true" else "false")
    ensures d.Null? || d.Unknown? ==> r == ""
    ensures d.Str? ==> r == d.s
    ensures d.Ipv4? ==> r == d.ipv4
    ensures d.Ipv6? ==> r == d.ipv6
    ensures d.Binary? ==> r == renderers.base64(d.bytes)
    ensures d.Int32? || d.Int64? || d.Uint32? || d.Uint64? ==> r == renderers.decimal(IntegerValue(d))
  {
    match d
    case Binary(bytes) => renderers.base64(bytes)
    case Boolean(b) => if b then "true" else "false"
    case Int32(i) => renderers.decimal(i)
    case Int64(l) => renderers.decimal(l)
    case Ipv4(text) => text
    case Ipv6(text) => text
    case Null => ""
    case Str(s) => s
    case Uint32(u) => renderers.decimal(u)
    case Uint64(ul) => renderers.decimal(ul)
    case Unknown(_) => ""
  }

  /**
   * `ToString` shows what the encoding carries: the text of an ASCII string
   * is exactly what a reader recovers from its bytes, and a boolean reads
   * `true` exactly when its flag nibble is set.
   */
  lemma ToStringAgreesWithEncode(renderers: Renderers, codecs: Codecs, decode: seq<byte> -> Option<(int, nat)>,
                                 s: string, b: bool, rest: seq<byte>)
    requires DecodesVarInt(codecs, decode)
    requires forall i :: 0 <= i < |s| ==> s[i] as int < 0x80
    ensures var text := ToString(renderers, Str(s));
            var decoded := DecodePrefixed(decode, StringType, Encode(codecs, Str(s)).value + rest);
            decoded.Some? && |decoded.value| == |text| && forall i :: 0 <= i < |text| ==> decoded.value[i] as int == text[i] as int
    ensures ToString(renderers, Boolean(b)) == "true" <==> SplitTypeByte(Encode(codecs, Boolean(b)).value[0]).1 == 1
  {
    StringRoundTripAsWritten(codecs, decode, s, rest);
  }
}
