/** The five row filters, the byte order and the chunk layout as RFC 2083 gives them, each in its own words, and what
    encoder and decoder make of them. */
module PngStandard {
  import opened Texts
  import opened PngFilter
  import opened PngContainer
  import opened PngRoundTrip
  import PngCrc

  // ---- sections 6.2 to 6.6: the filters ----

  /** How far a neighbour is from left plus up minus upper left. */
  function Distance(left: byte, up: byte, upLeft: byte, neighbour: byte): nat {
    var d := left + up - upLeft - neighbour;
    if d < 0 then -d else d
  }

  /** `r` is the first of left, up and upper left that no other is nearer than. */
  ghost predicate FirstNearest(left: byte, up: byte, upLeft: byte, r: byte) {
    var s := [left, up, upLeft];
    exists i :: 0 <= i < 3 && r == s[i] && forall j :: 0 <= j < 3 ==>
      && Distance(left, up, upLeft, s[i]) <= Distance(left, up, upLeft, s[j])
      && (j < i ==> Distance(left, up, upLeft, s[i]) < Distance(left, up, upLeft, s[j]))
  }

  /** `coded` is what the filter makes of `raw` beside these neighbours; differences are taken modulo 256. */
  ghost predicate Codes(filter: Filter, coded: byte, raw: byte, left: byte, up: byte, upLeft: byte) {
    match filter
    case 0 => coded == raw
    case 1 => coded == (raw - left) % 256
    case 2 => coded == (raw - up) % 256
    case 3 => exists half :: 2 * half <= left + up <= 2 * half + 1 && coded == (raw - half) % 256
    case _ => exists nearest: byte :: FirstNearest(left, up, upLeft, nearest) && coded == (raw - nearest) % 256
  }

  /** Byte `i` of a row, zero before its first. */
  function ByteOr0(row: seq<byte>, i: int): byte
    requires i < |row|
  {
    if i < 0 then 0 else row[i]
  }

  /** Byte `x` of the row as its filter codes it: the same byte of the pixel to the left is four bytes back, the one
      above is in the prior row. */
  ghost predicate CodesAt(filter: Filter, coded: byte, row: seq<byte>, prior: seq<byte>, x: nat)
    requires x < |row| == |prior|
  {
    Codes(filter, coded, row[x], ByteOr0(row, x - 4), prior[x], ByteOr0(prior, x - 4))
  }

  lemma PaethIsFirstNearest(left: byte, up: byte, upLeft: byte)
    ensures FirstNearest(left, up, upLeft, Paeth(left, up, upLeft))
  {
    var s := [left, up, upLeft];
    var p := left + up - upLeft;
    var i := if Abs(p - left) <= Abs(p - up) && Abs(p - left) <= Abs(p - upLeft) then 0
             else if Abs(p - up) <= Abs(p - upLeft) then 1 else 2;
    assert Paeth(left, up, upLeft) == s[i];
  }

  lemma PredictorCodes(filter: Filter, coded: byte, raw: byte, left: byte, up: byte, upLeft: byte)
    requires coded == (raw - Predictor(filter, left, up, upLeft)) % 256
    ensures Codes(filter, coded, raw, left, up, upLeft)
  {
    if filter == 3 {
      var half := (left + up) / 2;
      assert 2 * half <= left + up <= 2 * half + 1 && coded == (raw - half) % 256;
    } else if filter == 4 {
      PaethIsFirstNearest(left, up, upLeft);
    }
  }

  /** The encoder writes the byte the standard asks for, whatever the filter, the row and the row above. */
  lemma EncodesByTheStandard(filter: Filter, row: seq<byte>, prior: seq<byte>, x: nat)
    requires x < |row| == |prior|
    ensures CodesAt(filter, FilterRow(filter, row, prior)[x], row, prior, x)
  {
    hide Predictor, Codes;
    PredictorCodes(filter, FilterRow(filter, row, prior)[x], row[x], ByteOr0(row, x - 4), prior[x],
                   ByteOr0(prior, x - 4));
  }

  lemma Undone(coded: byte, prediction: byte)
    ensures ((coded + prediction) % 256 - prediction) % 256 == coded
  {
  }

  /** The decoder's byte, too, is the one whose coding is the byte it read. */
  lemma {:induction false} RowDecodesByTheStandard(filter: Filter, line: seq<Option<byte>>, prior: seq<byte>, n: nat,
                                                   x: nat)
    requires |line| == |prior| && x < n <= |line| && line[x].Some?
    ensures var row := UnfilterRow(filter, line, prior, n);
            Codes(filter, line[x].value, row[x], ByteOr0(row, x - 4), prior[x], ByteOr0(prior, x - 4))
  {
    hide Predictor, Codes;
    var row := UnfilterRow(filter, line, prior, n - 1);
    if x < n - 1 {
      RowDecodesByTheStandard(filter, line, prior, n - 1, x);
    } else {
      var predicted := Predicted(filter, row, prior, x);
      Undone(line[x].value, predicted);
      PredictorCodes(filter, line[x].value, UnfilterRow(filter, line, prior, n)[x], ByteOr0(row, x - 4), prior[x],
                     ByteOr0(prior, x - 4));
    }
  }

  /** Every byte of a decoded image is coded by the byte of the data it came from, under its row's filter and beside the
      pixels already decoded; a byte the data lacks decodes like a zero. */
  lemma {:induction false} ImageDecodesByTheStandard(filtered: seq<byte>, rowBytes: nat, h: nat, y: nat, x: nat)
    requires UnfilterImage(filtered, rowBytes, h).Some? && y < h && x < rowBytes
    ensures var rows, start := UnfilterImage(filtered, rowBytes, h).value, y * (rowBytes + 1);
            && start < |filtered| && filtered[start] <= 4
            && (start + 1 + x < |filtered| ==>
                  CodesAt(filtered[start], filtered[start + 1 + x], rows[y], Above(rows, y, rowBytes), x))
            && (start + 1 + x >= |filtered| ==> rows[y][x] == 0)
    decreases h
  {
    hide UnfilterRow, CodesAt;
    var before := UnfilterImage(filtered, rowBytes, h - 1).value;
    if y < h - 1 {
      ImageDecodesByTheStandard(filtered, rowBytes, h - 1, y, x);
      assert Above(before + [NextRow(filtered, rowBytes, before).value], y, rowBytes) == Above(before, y, rowBytes);
    } else {
      NextRowDecodes(filtered, rowBytes, before, x);
    }
  }

  lemma NextRowDecodes(filtered: seq<byte>, rowBytes: nat, rows: seq<seq<byte>>, x: nat)
    requires Rectangular(rows, rowBytes) && NextRow(filtered, rowBytes, rows).Some? && x < rowBytes
    ensures var row, start := NextRow(filtered, rowBytes, rows).value, |rows| * (rowBytes + 1);
            && start < |filtered| && filtered[start] <= 4
            && (start + 1 + x < |filtered| ==>
                  CodesAt(filtered[start], filtered[start + 1 + x], row, Above(rows, |rows|, rowBytes), x))
            && (start + 1 + x >= |filtered| ==> row[x] == 0)
  {
    hide UnfilterRow, LineAt, Above, CodesAt;
    LineDecodes(filtered, |rows| * (rowBytes + 1), Above(rows, |rows|, rowBytes), x);
  }

  lemma LineDecodes(filtered: seq<byte>, start: nat, above: seq<byte>, x: nat)
    requires Supported(At(filtered, start)) && x < |above|
    ensures start < |filtered| && filtered[start] <= 4
    ensures var row := UnfilterRow(filtered[start], LineAt(filtered, start + 1, |above|), above, |above|);
            && (start + 1 + x < |filtered| ==> CodesAt(filtered[start], filtered[start + 1 + x], row, above, x))
            && (start + 1 + x >= |filtered| ==> row[x] == 0)
  {
    hide Codes, UnfilterRow;
    var first := start + 1;
    var line := LineAt(filtered, first, |above|);
    assert line[x] == At(filtered, first + x);
    if start + 1 + x < |filtered| {
      RowDecodesByTheStandard(filtered[start], line, above, |above|, x);
    } else {
      MissingIsZero(filtered[start], line, above, |above|, x);
    }
  }

  lemma {:induction false} MissingIsZero(filter: Filter, line: seq<Option<byte>>, prior: seq<byte>, n: nat, x: nat)
    requires |line| == |prior| && x < n <= |line| && line[x].None?
    ensures UnfilterRow(filter, line, prior, n)[x] == 0
  {
    hide Predicted;
    if x < n - 1 {
      MissingIsZero(filter, line, prior, n - 1, x);
    }
  }

  /** The filter byte in front of row `y`. */
  function FilterOf(filtered: seq<byte>, rowBytes: nat, y: nat): Option<byte> {
    At(filtered, y * (rowBytes + 1))
  }

  /** An image is refused exactly when one of its rows has no filter byte, or one beyond the five; rows without pixels
      need none. */
  lemma {:induction false} RefusedIffUnsupported(filtered: seq<byte>, rowBytes: nat, h: nat)
    ensures UnfilterImage(filtered, rowBytes, h).None? <==>
            rowBytes > 0 && exists y: nat :: y < h && !Supported(FilterOf(filtered, rowBytes, y))
  {
    hide UnfilterRow, At;
    if h > 0 {
      RefusedIffUnsupported(filtered, rowBytes, h - 1);
      if UnfilterImage(filtered, rowBytes, h - 1).Some? {
        var rows := UnfilterImage(filtered, rowBytes, h - 1).value;
        assert NextRow(filtered, rowBytes, rows).None? <==>
               rowBytes > 0 && !Supported(FilterOf(filtered, rowBytes, h - 1));
      }
    }
  }

  // ---- sections 2.1, 3.2 and 3.4: byte order and chunk layout ----

  /** Four bytes, the most significant first. */
  function NetworkOrder(b: seq<byte>): nat
    requires |b| == 4
  {
    ((b[0] as int * 256 + b[1] as int) * 256 + b[2] as int) * 256 + b[3] as int
  }

  /** Numbers are written most significant byte first, and read the same way. */
  lemma NumbersAreInNetworkOrder(n: nat, data: seq<byte>, i: nat)
    requires n < LIMIT
    ensures NetworkOrder(U32(n)) == n
    ensures i + 4 <= |data| ==> ReadU32(data, i) == Some(NetworkOrder(data[i..i + 4]))
  {
    U32Digits(n);
  }

  /** A chunk is its length, its type, its data and the checksum over type and data, but not over the length. */
  lemma ChunkLayout(c: Chunk)
    requires Printable(c)
    ensures var b, n := PrintChunk(c), |c.data|;
            && |b| == n + 12
            && NetworkOrder(b[..4]) == n && b[4..8] == c.kind && b[8..n + 8] == c.data
            && NetworkOrder(b[n + 8..]) == PngCrc.Crc(AsBits(b[4..n + 8])) as nat
  {
    hide U32, NetworkOrder, AsBits, PngCrc.Crc;
    var b, n := PrintChunk(c), |c.data|;
    NumbersAreInNetworkOrder(n, [], 0);
    NumbersAreInNetworkOrder(Checksum(c.kind + c.data), [], 0);
    assert b[..4] == U32(n);
    assert b[4..n + 8] == c.kind + c.data;
    assert b[n + 8..] == U32(Checksum(c.kind + c.data));
  }

  /** Section 4.1.1: width and height come first, then bit depth and colour type; the interlace method is last. */
  lemma HeaderLayout(body: seq<byte>)
    requires |body| == 13
    ensures HeaderOf(body) == Some(Header(NetworkOrder(body[..4]), NetworkOrder(body[4..8]), Some(body[8]),
                                          Some(body[9]), Some(body[12])))
  {
    NumbersAreInNetworkOrder(0, body, 0);
    NumbersAreInNetworkOrder(0, body, 4);
  }

  // ---- the whole file ----

  /** A file the decoder takes has the signature, and its pixels are an image of the header's size whose every row was
      unfiltered from the decompressed data. */
  lemma TakenImage(inflate: seq<byte> -> Option<seq<byte>>, png: seq<byte>)
    requires Decode(inflate, png).Image?
    ensures |png| >= 8 && png[..8] == [137, 80, 78, 71, 13, 10, 26, 10]
    ensures var scan, image := ScanFrom(png, 8, None, []), Decode(inflate, png);
            && scan.Scanned? && scan.header.Some? && inflate(scan.data).Some?
            && scan.header.value == Header(image.width, image.height, Some(8), Some(6), Some(0))
            && UnfilterImage(inflate(scan.data).value, image.width * 4, image.height).Some?
            && image.pixels == Flatten(UnfilterImage(inflate(scan.data).value, image.width * 4, image.height).value)
            && |image.pixels| == image.height * (image.width * 4)
  {
    hide ScanFrom, UnfilterImage, Flatten;
    var scan, image := ScanFrom(png, 8, None, []), Decode(inflate, png);
    FlattenLength(UnfilterImage(inflate(scan.data).value, image.width * 4, image.height).value, image.width * 4);
  }

  /** One to three bytes after the last whole chunk, with no end chunk before them, are out of range. */
  lemma DanglingBytesAreRefused(inflate: seq<byte> -> Option<seq<byte>>, chunks: seq<Chunk>, rest: seq<byte>)
    requires (forall c :: c in chunks ==> Printable(c)) && 0 < |rest| < 4
    requires Read(chunks, None, []).Going?
    ensures Decode(inflate, File(chunks) + rest) == Refused(OutOfRange)
  {
    hide PrintChunks, Read, Printable;
    assert File(chunks) + rest == SIGNATURE + (PrintChunks(chunks) + rest);
    SliceOf([], SIGNATURE, PrintChunks(chunks) + rest);
    assert [] + (SIGNATURE + (PrintChunks(chunks) + rest)) == File(chunks) + rest;
    ParsesWhatIsPrinted(SIGNATURE, chunks, rest, None, []);
  }
}
