/** Printing and parsing PNG files: any list of chunks is read as that list, and a written image is read back. */
module PngRoundTrip {
  import opened Texts
  import opened PngFilter
  import opened PngContainer

  // ---- one chunk ----

  /** Where each part of a printed chunk is found again. */
  lemma ChunkParts(before: seq<byte>, c: Chunk, rest: seq<byte>)
    requires Printable(c)
    ensures var png := before + (PrintChunk(c) + rest);
            && ReadU32(png, |before|) == Some(|c.data|)
            && Slice(png, |before| + 4, |before| + 8) == c.kind
            && Slice(png, |before| + 8, |before| + 8 + |c.data|) == c.data
            && |before| + |c.data| + 12 == |before| + |PrintChunk(c)| <= |png|
  {
    hide U32, ReadU32, Checksum;
    var size, crc := U32(|c.data|), U32(Checksum(c.kind + c.data));
    var png := before + (PrintChunk(c) + rest);
    var tail := c.kind + (c.data + crc) + rest;
    assert png == before + (size + tail);
    U32RoundTrip(before, |c.data|, tail);
    assert png == (before + size) + (c.kind + (c.data + (crc + rest)));
    SliceOf(before + size, c.kind, c.data + (crc + rest));
    assert png == (before + size + c.kind) + (c.data + (crc + rest));
    SliceOf(before + size + c.kind, c.data, crc + rest);
  }

  lemma SliceOf(before: seq<byte>, part: seq<byte>, rest: seq<byte>)
    ensures Slice(before + (part + rest), |before|, |before| + |part|) == part
  {
    var all := before + (part + rest);
    if |part| > 0 {
      assert all[|before|..|before| + |part|] == part;
    }
  }

  // ---- a list of chunks ----

  /** What the decoder makes of a list of chunks: stopped by IEND or a bad header, or still open. */
  datatype State = Ended(scan: Scan) | Going(header: Option<Header>, data: seq<byte>)

  function Read(chunks: seq<Chunk>, header: Option<Header>, data: seq<byte>): State {
    if chunks == [] then Going(header, data)
    else
      var kind, body := Ascii(chunks[0].kind), chunks[0].data;
      if kind == IHDR then
        match HeaderOf(body)
        case None => Ended(RangeError)
        case Some(found) => Read(chunks[1..], Some(found), data)
      else if kind == IDAT then Read(chunks[1..], header, data + body)
      else if kind == IEND then Ended(Scanned(header, data))
      else Read(chunks[1..], header, data)
  }

  /** Parsing printed chunks is reading the list: up to IEND when there is one, and otherwise on to what follows. */
  lemma {:induction false} ParsesWhatIsPrinted(before: seq<byte>, chunks: seq<Chunk>, rest: seq<byte>,
                                               header: Option<Header>, data: seq<byte>)
    requires forall c :: c in chunks ==> Printable(c)
    ensures var png := before + (PrintChunks(chunks) + rest);
            ScanFrom(png, |before|, header, data) ==
            match Read(chunks, header, data)
            case Ended(scan) => scan
            case Going(h, d) => ScanFrom(png, |before| + |PrintChunks(chunks)|, h, d)
    decreases |chunks|
  {
    hide Ascii, HeaderOf, Slice, ReadU32, PrintChunk, Printable;
    var png := before + (PrintChunks(chunks) + rest);
    if chunks != [] {
      var c := chunks[0];
      var printed, others := PrintChunk(c), PrintChunks(chunks[1..]);
      assert png == before + (printed + (others + rest));
      ChunkParts(before, c, others + rest);
      assert png == (before + printed) + (others + rest);
      var kind := Ascii(c.kind);
      if kind == IHDR {
        if HeaderOf(c.data).Some? {
          ParsesWhatIsPrinted(before + printed, chunks[1..], rest, HeaderOf(c.data), data);
        }
      } else if kind == IDAT {
        ParsesWhatIsPrinted(before + printed, chunks[1..], rest, header, data + c.data);
      } else if kind != IEND {
        ParsesWhatIsPrinted(before + printed, chunks[1..], rest, header, data);
      }
    }
  }

  /** A file of these chunks. */
  function File(chunks: seq<Chunk>): seq<byte>
    requires forall c :: c in chunks ==> Printable(c)
  {
    SIGNATURE + PrintChunks(chunks)
  }

  // ---- images ----

  function HeaderBytes(width: nat, height: nat): seq<byte>
    requires width < LIMIT && height < LIMIT
  {
    U32(width) + (U32(height) + [8, 6, 0, 0, 0])
  }

  lemma HeaderRoundTrip(width: nat, height: nat)
    requires width < LIMIT && height < LIMIT
    ensures HeaderOf(HeaderBytes(width, height)) == Some(Header(width, height, Some(8), Some(6), Some(0)))
    ensures |HeaderBytes(width, height)| == 13
  {
    hide U32, ReadU32;
    var tail: seq<byte> := [8, 6, 0, 0, 0];
    var body := HeaderBytes(width, height);
    assert body == [] + (U32(width) + (U32(height) + tail));
    U32RoundTrip([], width, U32(height) + tail);
    U32RoundTrip(U32(width), height, tail);
    assert body == (U32(width) + U32(height)) + tail;
  }

  /** Chunks that neither start nor end an image, and the image data they carry together. */
  predicate Middle(chunks: seq<Chunk>) {
    forall c :: c in chunks ==> Printable(c) && Ascii(c.kind) != IHDR && Ascii(c.kind) != IEND
  }

  function ImageData(chunks: seq<Chunk>): seq<byte> {
    if chunks == [] then []
    else (if Ascii(chunks[0].kind) == IDAT then chunks[0].data else []) + ImageData(chunks[1..])
  }

  lemma {:induction false} ReadMiddle(chunks: seq<Chunk>, last: seq<Chunk>, header: Option<Header>, data: seq<byte>)
    requires Middle(chunks)
    ensures Read(chunks + last, header, data) == Read(last, header, data + ImageData(chunks))
    decreases |chunks|
  {
    hide Ascii, HeaderOf, Printable;
    if chunks == [] {
      assert chunks + last == last && data + [] == data;
    } else {
      assert (chunks + last)[1..] == chunks[1..] + last;
      var body := if Ascii(chunks[0].kind) == IDAT then chunks[0].data else [];
      assert data + ImageData(chunks) == data + body + ImageData(chunks[1..]);
      assert data + [] == data;
      assert chunks[0] in chunks;
      ReadMiddle(chunks[1..], last, header, data + body);
    }
  }

  lemma KindsAreAscii()
    ensures Ascii(IHDR) == IHDR && Ascii(IDAT) == IDAT && Ascii(IEND) == IEND
  {
  }

  /** For every image and every choice of row filters, every way of cutting the compressed rows into IDAT chunks,
      with any other chunks in between and any bytes after the end, decoding gives back size and pixels. */
  lemma WrittenImageIsRead(inflate: seq<byte> -> Option<seq<byte>>, width: nat, rows: seq<seq<byte>>,
                           types: seq<Filter>, middle: seq<Chunk>, rest: seq<byte>)
    requires width < LIMIT && |rows| < LIMIT && Rectangular(rows, width * BYTES_PER_PIXEL) && |types| == |rows|
    requires Middle(middle)
    requires inflate(ImageData(middle)) == Some(FilterImage(rows, types, width * BYTES_PER_PIXEL))
    ensures var chunks := [Chunk(IHDR, HeaderBytes(width, |rows|))] + middle + [Chunk(IEND, [])];
            && (forall c :: c in chunks ==> Printable(c))
            && Decode(inflate, File(chunks) + rest) == Image(width, |rows|, Flatten(rows))
  {
    hide Ascii, HeaderOf, HeaderBytes, UnfilterImage, FilterImage, PrintChunks, ScanFrom, Read, ImageData;
    HeaderRoundTrip(width, |rows|);
    var first, end := Chunk(IHDR, HeaderBytes(width, |rows|)), Chunk(IEND, []);
    var chunks := [first] + middle + [end];
    forall c | c in chunks ensures Printable(c) {
      assert c == first || c in middle || c == end;
    }
    assert File(chunks) + rest == SIGNATURE + (PrintChunks(chunks) + rest);
    SliceOf([], SIGNATURE, PrintChunks(chunks) + rest);
    assert [] + (SIGNATURE + (PrintChunks(chunks) + rest)) == File(chunks) + rest;
    ParsesWhatIsPrinted(SIGNATURE, chunks, rest, None, []);
    ReadImage(first, middle, end, HeaderOf(first.data).value);
    ImageRoundTrip(rows, types, width * BYTES_PER_PIXEL, []);
    assert FilterImage(rows, types, width * BYTES_PER_PIXEL) + [] == FilterImage(rows, types, width * BYTES_PER_PIXEL);
  }

  lemma ReadImage(first: Chunk, middle: seq<Chunk>, end: Chunk, header: Header)
    requires first.kind == IHDR && HeaderOf(first.data) == Some(header) && end.kind == IEND && Middle(middle)
    ensures Read([first] + middle + [end], None, []) == Ended(Scanned(Some(header), ImageData(middle)))
  {
    hide Ascii, HeaderOf, ImageData;
    KindsAreAscii();
    assert ([first] + middle + [end])[1..] == middle + [end];
    ReadMiddle(middle, [end], Some(header), []);
    assert [] + ImageData(middle) == ImageData(middle);
  }
}
