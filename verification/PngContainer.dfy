/** The PNG container: the chunk printer and the chunk loop of the decoder (RFC 2083, sections 3.1, 3.2 and 4.1). */
module PngContainer {
  import opened Texts
  import opened PngFilter
  import PngCrc

  const LIMIT := 0x1_0000_0000
  const SIGNATURE: seq<byte> := [137, 80, 78, 71, 13, 10, 26, 10]
  const IHDR: seq<byte> := [73, 72, 68, 82]
  const IDAT: seq<byte> := [73, 68, 65, 84]
  const IEND: seq<byte> := [73, 69, 78, 68]

  // ---- numbers ----

  /** `writeUInt32BE`. */
  function U32(n: nat): (bytes: seq<byte>)
    requires n < LIMIT
    ensures |bytes| == 4
  {
    [n / 16777216, n / 65536 % 256, n / 256 % 256, n % 256]
  }

  function Number(a: nat, b: nat, c: nat, d: nat): nat {
    a * 16777216 + b * 65536 + c * 256 + d
  }

  /** `readUInt32BE`; None for the RangeError. */
  function ReadU32(data: seq<byte>, i: nat): Option<nat> {
    if i + 4 > |data| then None
    else Some(Number(data[i], data[i + 1], data[i + 2], data[i + 3]))
  }

  lemma U32Digits(n: nat)
    requires n < LIMIT
    ensures Number(U32(n)[0], U32(n)[1], U32(n)[2], U32(n)[3]) == n
  {
    var a, d0 := n / 256, n % 256;
    var b, d1 := a / 256, a % 256;
    assert n == 65536 * b + (256 * d1 + d0);
    assert n / 65536 == b;
    var c, d2 := b / 256, b % 256;
    assert n == 16777216 * c + (65536 * d2 + 256 * d1 + d0);
    assert n / 16777216 == c;
  }

  /** A written number is read back where it was written. */
  lemma U32RoundTrip(before: seq<byte>, n: nat, rest: seq<byte>)
    requires n < LIMIT
    ensures ReadU32(before + (U32(n) + rest), |before|) == Some(n)
  {
    hide U32;
    U32Digits(n);
    var all := before + (U32(n) + rest);
    assert all[|before|..] == U32(n) + rest;
    assert forall k :: 0 <= k < 4 ==> all[|before| + k] == all[|before|..][k] == U32(n)[k];
  }

  // ---- chunks ----

  datatype Chunk = Chunk(kind: seq<byte>, data: seq<byte>)

  predicate Printable(c: Chunk) {
    |c.kind| == 4 && |c.data| < LIMIT
  }

  function AsBits(data: seq<byte>): seq<bv8> {
    seq(|data|, i requires 0 <= i < |data| => data[i] as bv8)
  }

  function Checksum(data: seq<byte>): (n: nat)
    ensures n < LIMIT
  {
    PngCrc.Crc(AsBits(data)) as nat
  }

  /** Length, type, data and the checksum over type and data. */
  function PrintChunk(c: Chunk): (bytes: seq<byte>)
    requires Printable(c)
    ensures |bytes| == |c.data| + 12
  {
    U32(|c.data|) + (c.kind + (c.data + U32(Checksum(c.kind + c.data))))
  }

  function PrintChunks(chunks: seq<Chunk>): seq<byte>
    requires forall c :: c in chunks ==> Printable(c)
  {
    if chunks == [] then [] else PrintChunk(chunks[0]) + PrintChunks(chunks[1..])
  }

  // ---- the decoder's chunk loop ----

  /** `subarray`, which clamps both ends to the buffer. */
  function Slice(data: seq<byte>, from: nat, to: nat): seq<byte>
    requires from <= to
  {
    if from >= |data| then [] else if to > |data| then data[from..] else data[from..to]
  }

  /** `toString("ascii")`, which drops the highest bit of every byte. */
  function Ascii(bytes: seq<byte>): seq<byte> {
    seq(|bytes|, i requires 0 <= i < |bytes| => bytes[i] % 128)
  }

  datatype Header = Header(width: nat, height: nat, depth: Option<byte>, color: Option<byte>, interlace: Option<byte>)

  datatype Scan = Scanned(header: Option<Header>, data: seq<byte>) | RangeError

  /** The fields of an IHDR body; None when it is too short to hold the size. */
  function HeaderOf(body: seq<byte>): Option<Header> {
    if ReadU32(body, 0).None? || ReadU32(body, 4).None? then None
    else Some(Header(ReadU32(body, 0).value, ReadU32(body, 4).value, At(body, 8), At(body, 9), At(body, 12)))
  }

  function ScanFrom(png: seq<byte>, offset: nat, header: Option<Header>, data: seq<byte>): Scan
    decreases |png| - offset
  {
    if offset >= |png| then Scanned(header, data)
    else
      match ReadU32(png, offset)
      case None => RangeError
      case Some(length) =>
        var kind := Ascii(Slice(png, offset + 4, offset + 8));
        var body := Slice(png, offset + 8, offset + 8 + length);
        var next := offset + length + 12;
        if kind == IHDR then
          match HeaderOf(body)
          case None => RangeError
          case Some(found) => ScanFrom(png, next, Some(found), data)
        else if kind == IDAT then ScanFrom(png, next, header, data + body)
        else if kind == IEND then Scanned(header, data)
        else ScanFrom(png, next, header, data)
  }

  datatype PngError = NotPng | OutOfRange | NotRgba | BadData | BadFilter
  datatype Decoded = Image(width: nat, height: nat, pixels: seq<byte>) | Refused(error: PngError)

  predicate RgbaHeader(header: Option<Header>) {
    && header.Some?
    && header.value.depth == Some(8) && header.value.color == Some(6) && header.value.interlace == Some(0)
  }

  /** What follows the chunk loop. */
  function Picture(inflate: seq<byte> -> Option<seq<byte>>, scan: Scan): Decoded {
    match scan
    case RangeError => Refused(OutOfRange)
    case Scanned(header, data) =>
      if !RgbaHeader(header) then Refused(NotRgba)
      else
        match inflate(data)
        case None => Refused(BadData)
        case Some(filtered) =>
          match UnfilterImage(filtered, header.value.width * BYTES_PER_PIXEL, header.value.height)
          case None => Refused(BadFilter)
          case Some(rows) => Image(header.value.width, header.value.height, Flatten(rows))
  }

  function Decode(inflate: seq<byte> -> Option<seq<byte>>, png: seq<byte>): Decoded {
    if Slice(png, 0, 8) != SIGNATURE then Refused(NotPng) else Picture(inflate, ScanFrom(png, 8, None, []))
  }

  lemma OutOfRangeIsRefused(inflate: seq<byte> -> Option<seq<byte>>)
    ensures Picture(inflate, RangeError) == Refused(OutOfRange)
  {
  }

  /** `decodeRgbaPng`. */
  method DecodeRgbaPng(inflate: seq<byte> -> Option<seq<byte>>, png: seq<byte>) returns (result: Decoded)
    ensures result == Decode(inflate, png)
  {
    hide Ascii, HeaderOf, Picture, Slice, ReadU32;
    OutOfRangeIsRefused(inflate);
    if Slice(png, 0, 8) != SIGNATURE {
      return Refused(NotPng);
    }
    var header: Option<Header> := None;
    var imageData: seq<byte> := [];
    var offset := 8;
    while offset < |png|
      invariant ScanFrom(png, offset, header, imageData) == ScanFrom(png, 8, None, [])
      decreases |png| - offset
    {
      var length := ReadU32(png, offset);
      if length.None? {
        return Refused(OutOfRange);
      }
      var kind := Ascii(Slice(png, offset + 4, offset + 8));
      var data := Slice(png, offset + 8, offset + 8 + length.value);
      if kind == IHDR {
        header := HeaderOf(data);
        if header.None? {
          return Refused(OutOfRange);
        }
      } else if kind == IDAT {
        imageData := imageData + data;
      } else if kind == IEND {
        break;
      }
      offset := offset + length.value + 12;
    }
    result := FinishDecoding(inflate, header, imageData);
  }

  /** The header check, decompression and unfiltering after the chunk loop. */
  method FinishDecoding(inflate: seq<byte> -> Option<seq<byte>>, header: Option<Header>, imageData: seq<byte>)
    returns (result: Decoded)
    ensures result == Picture(inflate, Scanned(header, imageData))
  {
    hide UnfilterImage, Flatten;
    if !RgbaHeader(header) {
      return Refused(NotRgba);
    }
    var filtered := inflate(imageData);
    if filtered.None? {
      return Refused(BadData);
    }
    var ok, pixels := DecodePixels(filtered.value, header.value.width, header.value.height);
    if !ok {
      return Refused(BadFilter);
    }
    result := Image(header.value.width, header.value.height, pixels[..]);
  }
}
