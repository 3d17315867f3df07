/**
 * The NT headers of a PE image (Microsoft PE and COFF Specification,
 * section 3.2 "Signature (Image Only)" and section 3.4.1 "Optional Header
 * Standard Fields"): a 4-byte signature, the COFF file header, and an
 * optional header whose first two bytes, the magic, say whether it is the
 * PE32 or the PE32+ layout.
 *
 * The file-header and optional-header parsers are not part of this model
 * and are parameters; the reader is a byte sequence and a position, and
 * reading past the end is an error as in the source's reader.
 */
module PeHeaders {
  import opened Wrappers
  import opened Bytes

  /** "PE" read as a little-endian 16-bit value. */
  const NtSignature: uint16 := 0x4550
  const Pe32Magic: uint16 := 0x010B
  const Pe32PlusMagic: uint16 := 0x020B

  datatype Reader = Reader(data: seq<byte>, position: nat)

  datatype PeError = EndOfData | InvalidSignature | InvalidOptionalHeaderMagic | Malformed(what: string)

  /** `DataReader.ReadUInt16`: two little-endian bytes. */
  function ReadUInt16(reader: Reader): (r: Result<(uint16, Reader), PeError>)
    ensures r.Success? <==> reader.position + 2 <= |reader.data|
    ensures r.Success? ==> r.value.1 == reader.(position := reader.position + 2)
  {
    if reader.position + 2 > |reader.data| then Failure(EndOfData)
    else
      var p := reader.position;
      Success(((reader.data[p] as int + 0x100 * reader.data[p + 1] as int) as uint16, reader.(position := p + 2)))
  }

  /** `DataReader.ReadUInt32`: four little-endian bytes. */
  function ReadUInt32(reader: Reader): (r: Result<(uint32, Reader), PeError>)
    ensures r.Success? <==> reader.position + 4 <= |reader.data|
    ensures r.Success? ==> r.value.1 == reader.(position := reader.position + 4)
  {
    if reader.position + 4 > |reader.data| then Failure(EndOfData)
    else
      var p := reader.position;
      var v := DecodeUInt32(reader.data[p..p + 4]);
      Success((v as uint32, reader.(position := p + 4)))
  }

  /** The little-endian bytes of a 32-bit value, as a writer would lay them out. */
  function EncodeUInt32(v: uint32): (r: seq<byte>)
    ensures |r| == 4
  {
    var q1 := v as int / 0x100;
    var q2 := q1 / 0x100;
    [(v as int % 0x100) as byte, (q1 % 0x100) as byte, (q2 % 0x100) as byte, (q2 / 0x100) as byte]
  }

  /** The value of four little-endian bytes. */
  function DecodeUInt32(b: seq<byte>): int
    requires |b| == 4
  {
    b[0] as int + 0x100 * (b[1] as int + 0x100 * (b[2] as int + 0x100 * b[3] as int))
  }

  lemma DecodeEncodeUInt32(v: uint32)
    ensures DecodeUInt32(EncodeUInt32(v)) == v as int
  {
    var x := v as int;
    var q1 := x / 0x100;
    var q2 := q1 / 0x100;
    assert q2 == q2 % 0x100 + 0x100 * (q2 / 0x100);
    assert q1 == q1 % 0x100 + 0x100 * q2;
    assert x == x % 0x100 + 0x100 * q1;
  }

  /** Reading back what was written gives the value, wherever it sits. */
  lemma ReadUInt32RoundTrip(before: seq<byte>, v: uint32, after: seq<byte>)
    ensures ReadUInt32(Reader(before + EncodeUInt32(v) + after, |before|))
         == Success((v, Reader(before + EncodeUInt32(v) + after, |before| + 4)))
  {
    var d := before + EncodeUInt32(v) + after;
    var p := |before|;
    assert d[p..p + 4] == EncodeUInt32(v);
    DecodeEncodeUInt32(v);
    assert DecodeUInt32(d[p..p + 4]) == v as int;
  }

  /** The signature check: with verification on, only the low 16 bits are compared. */
  predicate SignatureAccepted(signature: uint32, verify: bool) {
    !verify || signature as int % 0x1_0000 == NtSignature as int
  }

  /** The upper half of the signature never matters. */
  lemma SignatureHighBitsIgnored(s1: uint32, s2: uint32, verify: bool)
    requires s1 as int % 0x1_0000 == s2 as int % 0x1_0000
    ensures SignatureAccepted(s1, verify) <==> SignatureAccepted(s2, verify)
  {
  }

  /** The parts of the file header this model needs. */
  datatype FileHeader = FileHeader(sizeOfOptionalHeader: uint16)

  datatype OptionalHeaderKind = Pe32 | Pe32Plus

  /** A parsed optional header: its layout and where it began. */
  datatype OptionalHeader = OptionalHeader(kind: OptionalHeaderKind, start: nat)

  datatype NtHeaders = NtHeaders(startOffset: nat, signature: uint32, fileHeader: FileHeader, optionalHeader: OptionalHeader, endOffset: nat)

  /**
   * The parsers that are not part of this model: the COFF file header and the
   * two optional header layouts, each reading from a reader and returning the
   * advanced reader.
   */
  datatype Parsers = Parsers(
    fileHeader: (Reader, bool) -> Result<(FileHeader, Reader), PeError>,
    optional32: (Reader, uint16, bool) -> Result<Reader, PeError>,
    optional64: (Reader, uint16, bool) -> Result<Reader, PeError>)

  /**
   * `CreateImageOptionalHeader`: peek the magic, step back over it, and hand
   * the reader to the layout the magic names. Any other magic is an error
   * whether or not verification is on.
   */
  function CreateOptionalHeader(parsers: Parsers, reader: Reader, fileHeader: FileHeader, verify: bool)
    : (r: Result<(OptionalHeader, Reader), PeError>)
    ensures ReadUInt16(reader).Failure? ==> r == Failure(EndOfData)
    ensures ReadUInt16(reader).Success? && ReadUInt16(reader).value.0 !in {Pe32Magic, Pe32PlusMagic}
            ==> r == Failure(InvalidOptionalHeaderMagic)
    ensures ReadUInt16(reader).Success? && ReadUInt16(reader).value.0 == Pe32Magic ==>
              r == (match parsers.optional32(reader, fileHeader.sizeOfOptionalHeader, verify)
                    case Success(next) => Success((OptionalHeader(Pe32, reader.position), next))
                    case Failure(e) => Failure(e))
    ensures ReadUInt16(reader).Success? && ReadUInt16(reader).value.0 == Pe32PlusMagic ==>
              r == (match parsers.optional64(reader, fileHeader.sizeOfOptionalHeader, verify)
                    case Success(next) => Success((OptionalHeader(Pe32Plus, reader.position), next))
                    case Failure(e) => Failure(e))
    ensures r.Success? ==> r.value.0.start == reader.position
  {
    var (magic, afterMagic) :- ReadUInt16(reader);
    var peeked := afterMagic.(position := afterMagic.position - 2);
    assert peeked == reader;
    if magic == Pe32Magic then
      var next :- parsers.optional32(peeked, fileHeader.sizeOfOptionalHeader, verify);
      Success((OptionalHeader(Pe32, peeked.position), next))
    else if magic == Pe32PlusMagic then
      var next :- parsers.optional64(peeked, fileHeader.sizeOfOptionalHeader, verify);
      Success((OptionalHeader(Pe32Plus, peeked.position), next))
    else Failure(InvalidOptionalHeaderMagic)
  }

  /** The `ImageNTHeaders` constructor. */
  function ReadNtHeaders(parsers: Parsers, reader: Reader, verify: bool): (r: Result<NtHeaders, PeError>)
    ensures ReadUInt32(reader).Success? && !SignatureAccepted(ReadUInt32(reader).value.0, verify)
            ==> r == Failure(InvalidSignature)
    ensures r.Success? ==> && r.value.startOffset == reader.position
                           && ReadUInt32(reader) == Success((r.value.signature, reader.(position := reader.position + 4)))
                           && SignatureAccepted(r.value.signature, verify)
  {
    var (signature, afterSignature) :- ReadUInt32(reader);
    if !SignatureAccepted(signature, verify) then Failure(InvalidSignature)
    else
      var (fileHeader, afterFileHeader) :- parsers.fileHeader(afterSignature, verify);
      var (optional, afterOptional) :- CreateOptionalHeader(parsers, afterFileHeader, fileHeader, verify);
      Success(NtHeaders(reader.position, signature, fileHeader, optional, afterOptional.position))
  }

  /**
   * The fields are read in order: the file header right after the four
   * signature bytes, the optional header where the file header ends.
   */
  lemma ReadOrder(parsers: Parsers, reader: Reader, verify: bool)
    requires ReadNtHeaders(parsers, reader, verify).Success?
    ensures var h := ReadNtHeaders(parsers, reader, verify).value;
            var afterSignature := reader.(position := reader.position + 4);
            parsers.fileHeader(afterSignature, verify).Success?
            && h.fileHeader == parsers.fileHeader(afterSignature, verify).value.0
            && h.optionalHeader.start == parsers.fileHeader(afterSignature, verify).value.1.position
  {
  }

  /**
   * An image whose signature is "PE\0\0" and whose optional header carries
   * the PE32 magic yields PE32 headers whenever the foreign parsers succeed.
   */
  lemma Pe32ImageParses(parsers: Parsers, before: seq<byte>, after: seq<byte>, verify: bool)
    requires var reader := Reader(before + EncodeUInt32(0x0000_4550) + after, |before|);
             var fh := parsers.fileHeader(reader.(position := |before| + 4), verify);
             && fh.Success?
             && fh.value.1.data == reader.data
             && fh.value.1.position + 2 <= |reader.data|
             && reader.data[fh.value.1.position] == 0x0B && reader.data[fh.value.1.position + 1] == 0x01
             && parsers.optional32(fh.value.1, fh.value.0.sizeOfOptionalHeader, verify).Success?
    ensures ReadNtHeaders(parsers, Reader(before + EncodeUInt32(0x0000_4550) + after, |before|), verify).Success?
    ensures ReadNtHeaders(parsers, Reader(before + EncodeUInt32(0x0000_4550) + after, |before|), verify).value.optionalHeader.kind == Pe32
  {
    ReadUInt32RoundTrip(before, 0x0000_4550, after);
  }
}
