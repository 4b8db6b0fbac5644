/** Writing the padded icon: `pngChunk` and the encoding half of `createPaddedIcon`. */
module PngIcon {
  import opened Texts
  import opened PngFilter
  import opened PngContainer
  import opened PngRoundTrip
  import PngCrc

  const ICON_SIZE := 256
  const ROW_BYTES := 1024

  // ---- a chunk into a buffer ----

  /** `copy` and `writeUInt32BE` fill a stretch of a buffer. */
  method CopyInto(buffer: array<byte>, at: nat, data: seq<byte>)
    requires at + |data| <= buffer.Length
    modifies buffer
    ensures buffer[..at] == old(buffer[..at])
    ensures buffer[at..at + |data|] == data
    ensures buffer[at + |data|..] == old(buffer[at + |data|..])
  {
    for i := 0 to |data|
      invariant buffer[..at] == old(buffer[..at])
      invariant buffer[at..at + i] == data[..i]
      invariant buffer[at + i..] == old(buffer[at + i..])
    {
      ghost var before := buffer[..at + i];
      ghost var after := buffer[at + i..];
      buffer[at + i] := data[i];
      assert buffer[..at + i] == before && buffer[at + i + 1..] == after[1..];
      assert buffer[at..at + i] == before[at..];
      assert buffer[at..at + i + 1] == buffer[at..at + i] + [data[i]];
    }
  }

  /** `pngChunk`; None for the RangeError of a body too long for its length field. */
  method PngChunk(table: array<bv32>, kind: seq<byte>, data: seq<byte>) returns (result: Option<seq<byte>>)
    requires |kind| == 4
    requires table.Length == 256 && forall i: nat :: i < 256 ==> table[i] == PngCrc.Entry(i)
    ensures result == if |data| < LIMIT then Some(PrintChunk(Chunk(kind, data))) else None
  {
    hide PngCrc.Entry, PngCrc.Crc, U32;
    if |data| >= LIMIT {
      return None;
    }
    var buffer := new byte[|data| + 12](_ => 0);
    CopyInto(buffer, 0, U32(|data|));
    CopyInto(buffer, 4, kind);
    ghost var head := buffer[..8];
    assert head == U32(|data|) + kind;
    CopyInto(buffer, 8, data);
    ghost var body := buffer[..|data| + 8];
    assert body == head + data;
    var crc := PngCrc.Crc32(table, AsBits(kind + data));
    CopyInto(buffer, |data| + 8, U32(crc as nat));
    assert buffer[..] == body + U32(crc as nat);
    result := Some(buffer[..]);
    assert result.value == PrintChunk(Chunk(kind, data));
  }

  // ---- the raw rows ----

  /** Row `y` of the canvas. */
  function CanvasRow(canvas: seq<byte>, y: nat): (row: seq<byte>)
    requires |canvas| == ICON_SIZE * ROW_BYTES && y < ICON_SIZE
    ensures |row| == ROW_BYTES
  {
    canvas[y * ROW_BYTES..(y + 1) * ROW_BYTES]
  }

  function CanvasRows(canvas: seq<byte>, h: nat): (rows: seq<seq<byte>>)
    requires |canvas| == ICON_SIZE * ROW_BYTES && h <= ICON_SIZE
    ensures |rows| == h && Rectangular(rows, ROW_BYTES)
  {
    seq(h, y requires 0 <= y < h => CanvasRow(canvas, y))
  }

  function NoFilters(h: nat): (types: seq<Filter>)
    ensures |types| == h
  {
    seq(h, _ => 0)
  }

  lemma NoneFilterIsPlain(row: seq<byte>, prior: seq<byte>)
    requires |row| == |prior|
    ensures FilterRow(0, row, prior) == row
  {
  }

  lemma OneMorePlainRow(canvas: seq<byte>, h: nat)
    requires |canvas| == ICON_SIZE * ROW_BYTES && h < ICON_SIZE
    ensures FilterImage(CanvasRows(canvas, h + 1), NoFilters(h + 1), ROW_BYTES) ==
            FilterImage(CanvasRows(canvas, h), NoFilters(h), ROW_BYTES) + [0] + CanvasRow(canvas, h)
    ensures Flatten(CanvasRows(canvas, h + 1)) == Flatten(CanvasRows(canvas, h)) + CanvasRow(canvas, h)
  {
    hide CanvasRow, FilterRow, Above;
    var rows := CanvasRows(canvas, h + 1);
    assert rows[..h] == CanvasRows(canvas, h) && NoFilters(h + 1)[..h] == NoFilters(h);
    NoneFilterIsPlain(rows[h], Above(rows, h, ROW_BYTES));
  }

  lemma {:induction false} RowsOfCanvas(canvas: seq<byte>, h: nat)
    requires |canvas| == ICON_SIZE * ROW_BYTES && h <= ICON_SIZE
    ensures Flatten(CanvasRows(canvas, h)) == canvas[..h * ROW_BYTES]
  {
    hide Flatten, FilterImage, CanvasRows, NoFilters;
    if h > 0 {
      RowsOfCanvas(canvas, h - 1);
      OneMorePlainRow(canvas, h - 1);
      assert canvas[..h * ROW_BYTES] == canvas[..(h - 1) * ROW_BYTES] + CanvasRow(canvas, h - 1);
    } else {
      assert CanvasRows(canvas, 0) == [];
      NothingFlat();
    }
  }

  /** The uncompressed image data: every row of the canvas behind a None filter byte. */
  function RawRows(canvas: seq<byte>): seq<byte>
    requires |canvas| == ICON_SIZE * ROW_BYTES
  {
    FilterImage(CanvasRows(canvas, ICON_SIZE), NoFilters(ICON_SIZE), ROW_BYTES)
  }

  /** The loop that fills `raw`. */
  method FillRaw(canvas: seq<byte>) returns (raw: array<byte>)
    requires |canvas| == ICON_SIZE * ROW_BYTES
    ensures raw[..] == RawRows(canvas)
  {
    hide FilterImage, Flatten, CanvasRow;
    raw := new byte[ICON_SIZE * (ROW_BYTES + 1)](_ => 0);
    assert FilterImage(CanvasRows(canvas, 0), NoFilters(0), ROW_BYTES) == [] by { NoRowsAtAll(canvas); }
    for y := 0 to ICON_SIZE
      invariant raw[..y * (ROW_BYTES + 1)] == FilterImage(CanvasRows(canvas, y), NoFilters(y), ROW_BYTES)
    {
      var rawRow := y * (ROW_BYTES + 1);
      ghost var before := raw[..rawRow];
      raw[rawRow] := 0;
      assert raw[..rawRow] == before;
      assert raw[..rawRow + 1] == before + [0];
      CopyInto(raw, rawRow + 1, Slice(canvas, y * ROW_BYTES, (y + 1) * ROW_BYTES));
      RowIsSlice(canvas, y);
      OneMorePlainRow(canvas, y);
      assert raw[..rawRow + 1 + ROW_BYTES] == raw[..rawRow + 1] + raw[rawRow + 1..rawRow + 1 + ROW_BYTES];
    }
    assert raw[..] == raw[..ICON_SIZE * (ROW_BYTES + 1)];
  }

  lemma NoRowsAtAll(canvas: seq<byte>)
    requires |canvas| == ICON_SIZE * ROW_BYTES
    ensures FilterImage(CanvasRows(canvas, 0), NoFilters(0), ROW_BYTES) == []
  {
  }

  lemma RowIsSlice(canvas: seq<byte>, y: nat)
    requires |canvas| == ICON_SIZE * ROW_BYTES && y < ICON_SIZE
    ensures Slice(canvas, y * ROW_BYTES, (y + 1) * ROW_BYTES) == CanvasRow(canvas, y)
  {
  }

  // ---- the file ----

  function IconChunks(compressed: seq<byte>): seq<Chunk> {
    [Chunk(IHDR, HeaderBytes(ICON_SIZE, ICON_SIZE))] + [Chunk(IDAT, compressed)] + [Chunk(IEND, [])]
  }

  /** The encoding half of `createPaddedIcon`. */
  method EncodeIcon(deflate: seq<byte> -> seq<byte>, canvas: seq<byte>) returns (png: Option<seq<byte>>)
    requires |canvas| == ICON_SIZE * ROW_BYTES
    ensures var compressed := deflate(RawRows(canvas));
            png == if (forall c :: c in IconChunks(compressed) ==> Printable(c)) then Some(File(IconChunks(compressed)))
                   else None
  {
    hide FilterImage, CanvasRow, PrintChunk, PngCrc.Entry, U32, RawRows;
    var table := PngCrc.CrcTable();
    var raw := FillRaw(canvas);
    ghost var compressed := deflate(RawRows(canvas));
    HeaderRoundTrip(ICON_SIZE, ICON_SIZE);
    IconPrintable(compressed);
    var header := PngChunk(table, IHDR, HeaderBytes(ICON_SIZE, ICON_SIZE));
    var data := PngChunk(table, IDAT, deflate(raw[..]));
    var end := PngChunk(table, IEND, []);
    if data.None? {
      return None;
    }
    ThreeChunks(Chunk(IHDR, HeaderBytes(ICON_SIZE, ICON_SIZE)), Chunk(IDAT, compressed), Chunk(IEND, []));
    png := Some(SIGNATURE + (header.value + (data.value + end.value)));
  }

  lemma IconPrintable(compressed: seq<byte>)
    ensures |HeaderBytes(ICON_SIZE, ICON_SIZE)| == 13
    ensures (forall c :: c in IconChunks(compressed) ==> Printable(c)) <==> |compressed| < LIMIT
  {
    hide HeaderBytes;
    HeaderRoundTrip(ICON_SIZE, ICON_SIZE);
    assert Chunk(IDAT, compressed) in IconChunks(compressed);
  }

  lemma ThreeChunks(a: Chunk, b: Chunk, c: Chunk)
    requires Printable(a) && Printable(b) && Printable(c)
    ensures PrintChunks([a] + [b] + [c]) == PrintChunk(a) + (PrintChunk(b) + PrintChunk(c))
  {
    hide PrintChunk;
    assert ([a] + [b] + [c])[1..] == [b] + [c] && ([b] + [c])[1..] == [c] && [c][1..] == [];
    assert PrintChunks([b] + [c]) == PrintChunk(b) + PrintChunks([c]);
    assert PrintChunks([c]) == PrintChunk(c) + PrintChunks([]);
  }

  /** Whatever the canvas, the icon file decodes to a 256 by 256 image with exactly its pixels. */
  lemma IconIsRead(inflate: seq<byte> -> Option<seq<byte>>, deflate: seq<byte> -> seq<byte>, canvas: seq<byte>)
    requires |canvas| == ICON_SIZE * ROW_BYTES
    requires forall data: seq<byte> :: inflate(deflate(data)) == Some(data)
    requires |deflate(RawRows(canvas))| < LIMIT
    ensures forall c :: c in IconChunks(deflate(RawRows(canvas))) ==> Printable(c)
    ensures Decode(inflate, File(IconChunks(deflate(RawRows(canvas))))) == Image(ICON_SIZE, ICON_SIZE, canvas)
  {
    hide FilterImage, CanvasRow, Decode, PrintChunk, HeaderBytes;
    var compressed := deflate(RawRows(canvas));
    var middle := [Chunk(IDAT, compressed)];
    KindsAreAscii();
    IconPrintable(compressed);
    OneData(compressed);
    RowsOfCanvas(canvas, ICON_SIZE);
    WrittenImageIsRead(inflate, ICON_SIZE, CanvasRows(canvas, ICON_SIZE), NoFilters(ICON_SIZE), middle, []);
    assert File(IconChunks(compressed)) + [] == File(IconChunks(compressed));
  }

  lemma OneData(compressed: seq<byte>)
    ensures ImageData([Chunk(IDAT, compressed)]) == compressed
  {
    KindsAreAscii();
    assert [Chunk(IDAT, compressed)][1..] == [];
  }
}
