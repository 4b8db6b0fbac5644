/** Scan-line filtering of eight-bit RGBA images: the decoder's loop against RFC 2083, sections 6.1 to 6.6. */
module PngFilter {
  import opened Texts

  type byte = x: int | 0 <= x < 256
  /** Filter types: None, Sub, Up, Average, Paeth. */
  type Filter = x: int | 0 <= x <= 4

  const BYTES_PER_PIXEL := 4

  function Abs(x: int): nat {
    if x < 0 then -x else x
  }

  /** `paethPredictor`. */
  function Paeth(left: byte, up: byte, upLeft: byte): byte {
    var estimate := left + up - upLeft;
    var leftDistance, upDistance, upLeftDistance :=
      Abs(estimate - left), Abs(estimate - up), Abs(estimate - upLeft);
    if leftDistance <= upDistance && leftDistance <= upLeftDistance then left
    else if upDistance <= upLeftDistance then up
    else upLeft
  }

  /** The nearest neighbour to left + up - upLeft; left wins ties, then up. */
  lemma PaethIsNearest(left: byte, up: byte, upLeft: byte)
    ensures var p, r := left + up - upLeft, Paeth(left, up, upLeft);
            && (r == left || r == up || r == upLeft)
            && Abs(p - r) <= Abs(p - left) && Abs(p - r) <= Abs(p - up) && Abs(p - r) <= Abs(p - upLeft)
            && (Abs(p - left) == Abs(p - r) ==> r == left)
            && (Abs(p - up) == Abs(p - r) ==> r == left || r == up)
  {
  }

  function Predictor(filter: Filter, left: byte, up: byte, upLeft: byte): byte {
    match filter
    case 0 => 0
    case 1 => left
    case 2 => up
    case 3 => (left + up) / 2
    case _ => Paeth(left, up, upLeft)
  }

  /** The prediction for byte `x` of a row from the bytes before it and the row above. */
  function Predicted(filter: Filter, row: seq<byte>, prior: seq<byte>, x: nat): byte
    requires x <= |row| && x < |prior|
  {
    var back := x - BYTES_PER_PIXEL;
    Predictor(filter, if back >= 0 then row[back] else 0, prior[x], if back >= 0 then prior[back] else 0)
  }

  // ---- one row ----

  /** The standard's encoder: every byte less its prediction, modulo 256. */
  function FilterRow(filter: Filter, row: seq<byte>, prior: seq<byte>): (line: seq<byte>)
    requires |row| == |prior|
    ensures |line| == |row|
  {
    seq(|row|, x requires 0 <= x < |row| => (row[x] - Predicted(filter, row, prior, x)) % 256)
  }

  /** The decoder's first `n` bytes of a row. A byte missing from the data decodes to zero. */
  function UnfilterRow(filter: Filter, line: seq<Option<byte>>, prior: seq<byte>, n: nat): (row: seq<byte>)
    requires |line| == |prior| && n <= |line|
    ensures |row| == n
  {
    if n == 0 then []
    else
      var row := UnfilterRow(filter, line, prior, n - 1);
      row + [match line[n - 1]
             case None => 0
             case Some(raw) => (raw + Predicted(filter, row, prior, n - 1)) % 256]
  }

  function Present(bytes: seq<byte>): (line: seq<Option<byte>>)
    ensures |line| == |bytes|
  {
    seq(|bytes|, i requires 0 <= i < |bytes| => Some(bytes[i]))
  }

  /** Unfiltering inverts filtering, whatever the filter and the row above. */
  lemma {:induction false} RowRoundTrip(filter: Filter, row: seq<byte>, prior: seq<byte>, n: nat)
    requires |row| == |prior| && n <= |row|
    ensures UnfilterRow(filter, Present(FilterRow(filter, row, prior)), prior, n) == row[..n]
  {
    hide Predictor;
    if n > 0 {
      RowRoundTrip(filter, row, prior, n - 1);
      var x := n - 1;
      assert Predicted(filter, row[..x], prior, x) == Predicted(filter, row, prior, x);
      Inverse(row[x], Predicted(filter, row, prior, x));
    }
  }

  lemma Inverse(value: byte, prediction: byte)
    ensures ((value - prediction) % 256 + prediction) % 256 == value
  {
  }

  // ---- the image ----

  function Zeros(n: nat): seq<byte> {
    seq(n, _ => 0)
  }

  /** The row above, zeros above the first. */
  function Above(rows: seq<seq<byte>>, y: nat, rowBytes: nat): (above: seq<byte>)
    requires y <= |rows|
    ensures Rectangular(rows, rowBytes) ==> |above| == rowBytes
  {
    if y == 0 then Zeros(rowBytes) else rows[y - 1]
  }

  predicate Rectangular(rows: seq<seq<byte>>, rowBytes: nat) {
    forall y :: 0 <= y < |rows| ==> |rows[y]| == rowBytes
  }

  /** The encoded image: every row as its filter type and its filtered bytes. */
  function FilterImage(rows: seq<seq<byte>>, types: seq<Filter>, rowBytes: nat): seq<byte>
    requires Rectangular(rows, rowBytes) && |types| == |rows|
  {
    if rows == [] then []
    else
      var y := |rows| - 1;
      FilterImage(rows[..y], types[..y], rowBytes)
      + [types[y]] + FilterRow(types[y], rows[y], Above(rows, y, rowBytes))
  }

  function At(data: seq<byte>, i: nat): Option<byte> {
    if i < |data| then Some(data[i]) else None
  }

  function LineAt(data: seq<byte>, start: nat, rowBytes: nat): (line: seq<Option<byte>>)
    ensures |line| == rowBytes
  {
    seq(rowBytes, x requires 0 <= x < rowBytes => At(data, start + x))
  }

  predicate Supported(filter: Option<byte>) {
    filter.Some? && filter.value <= 4
  }

  /** The row after the given ones; None when its filter type is missing or not supported. */
  function NextRow(filtered: seq<byte>, rowBytes: nat, rows: seq<seq<byte>>): (row: Option<seq<byte>>)
    requires Rectangular(rows, rowBytes)
    ensures row.Some? ==> |row.value| == rowBytes
  {
    var start := |rows| * (rowBytes + 1);
    if rowBytes == 0 then Some([])
    else if !Supported(At(filtered, start)) then None
    else Some(UnfilterRow(At(filtered, start).value, LineAt(filtered, start + 1, rowBytes),
                          Above(rows, |rows|, rowBytes), rowBytes))
  }

  /** The decoder's first `h` rows; None when it meets a row with no supported filter type. */
  function UnfilterImage(filtered: seq<byte>, rowBytes: nat, h: nat): (image: Option<seq<seq<byte>>>)
    ensures image.Some? ==> |image.value| == h && Rectangular(image.value, rowBytes)
  {
    if h == 0 then Some([])
    else
      match UnfilterImage(filtered, rowBytes, h - 1)
      case None => None
      case Some(rows) =>
        match NextRow(filtered, rowBytes, rows)
        case None => None
        case Some(row) => Some(rows + [row])
  }

  lemma {:induction false} FilterImageLength(rows: seq<seq<byte>>, types: seq<Filter>, rowBytes: nat)
    requires Rectangular(rows, rowBytes) && |types| == |rows|
    ensures |FilterImage(rows, types, rowBytes)| == |rows| * (rowBytes + 1)
  {
    if rows != [] {
      FilterImageLength(rows[..|rows| - 1], types[..|rows| - 1], rowBytes);
      assert (|rows| - 1) * (rowBytes + 1) + rowBytes + 1 == |rows| * (rowBytes + 1);
    }
  }

  lemma PartsOf(before: seq<byte>, filter: Filter, line: seq<byte>, rest: seq<byte>)
    ensures var all := before + ([filter] + line + rest);
            At(all, |before|) == Some(filter) && LineAt(all, |before| + 1, |line|) == Present(line)
  {
    var all := before + ([filter] + line + rest);
    forall x | 0 <= x < |line| ensures At(all, |before| + 1 + x) == Some(line[x]) {
      assert all[|before| + 1 + x] == ([filter] + line + rest)[1 + x] == line[x];
    }
    assert LineAt(all, |before| + 1, |line|) == Present(line);
  }

  /** Reading a row from its filter type and its line. */
  lemma NextRowReads(filtered: seq<byte>, rowBytes: nat, rows: seq<seq<byte>>, filter: Filter, line: seq<Option<byte>>)
    requires Rectangular(rows, rowBytes) && |line| == rowBytes > 0
    requires At(filtered, |rows| * (rowBytes + 1)) == Some(filter)
    requires LineAt(filtered, |rows| * (rowBytes + 1) + 1, rowBytes) == line
    ensures NextRow(filtered, rowBytes, rows) ==
            Some(UnfilterRow(filter, line, Above(rows, |rows|, rowBytes), rowBytes))
  {
    hide At, LineAt, Above, Predicted;
  }

  /** One more row is read back once those before it have been. */
  lemma NextRowRoundTrip(rows: seq<seq<byte>>, filter: Filter, row: seq<byte>, rowBytes: nat, before: seq<byte>,
                         rest: seq<byte>)
    requires |row| == rowBytes && Rectangular(rows, rowBytes) && |before| == |rows| * (rowBytes + 1)
    ensures var line := FilterRow(filter, row, Above(rows, |rows|, rowBytes));
            NextRow(before + ([filter] + line + rest), rowBytes, rows) == Some(row)
  {
    hide FilterRow, UnfilterRow, At, LineAt, Present, Above;
    var above := Above(rows, |rows|, rowBytes);
    var line := FilterRow(filter, row, above);
    if rowBytes == 0 {
      assert row == [];
    } else {
      PartsOf(before, filter, line, rest);
      RowRoundTrip(filter, row, above, rowBytes);
      assert row[..rowBytes] == row;
      NextRowReads(before + ([filter] + line + rest), rowBytes, rows, filter, Present(line));
    }
  }

  /** For every image and every choice of filter per row, filtering by the standard and decoding gives the image
      back; anything after the last row does not matter. */
  lemma {:induction false} ImageRoundTrip(rows: seq<seq<byte>>, types: seq<Filter>, rowBytes: nat, rest: seq<byte>)
    requires Rectangular(rows, rowBytes) && |types| == |rows|
    ensures UnfilterImage(FilterImage(rows, types, rowBytes) + rest, rowBytes, |rows|) == Some(rows)
    decreases |rows|
  {
    hide FilterRow, NextRow;
    if rows == [] {
    } else {
      var y := |rows| - 1;
      var init, before := rows[..y], FilterImage(rows[..y], types[..y], rowBytes);
      assert Above(init, y, rowBytes) == Above(rows, y, rowBytes);
      var last := [types[y]] + FilterRow(types[y], rows[y], Above(init, y, rowBytes)) + rest;
      assert FilterImage(rows, types, rowBytes) + rest == before + last;
      FilterImageLength(init, types[..y], rowBytes);
      ImageRoundTrip(init, types[..y], rowBytes, last);
      NextRowRoundTrip(init, types[y], rows[y], rowBytes, before, rest);
      assert rows == init + [rows[y]];
    }
  }

  // ---- the program ----

  function Flatten(rows: seq<seq<byte>>): seq<byte> {
    if rows == [] then [] else Flatten(rows[..|rows| - 1]) + rows[|rows| - 1]
  }

  lemma {:induction false} FlattenLength(rows: seq<seq<byte>>, rowBytes: nat)
    requires Rectangular(rows, rowBytes)
    ensures |Flatten(rows)| == |rows| * rowBytes
  {
    if rows != [] {
      FlattenLength(rows[..|rows| - 1], rowBytes);
      assert (|rows| - 1) * rowBytes + rowBytes == |rows| * rowBytes;
    }
  }

  /** One byte of a row, its neighbours read from the pixel buffer being filled. */
  method DecodeByte(filtered: seq<byte>, pixels: array<byte>, filter: Filter, inputRow: nat, outputRow: nat,
                    rowBytes: nat, x: nat, ghost row: seq<byte>, ghost above: seq<byte>)
    returns (value: byte)
    requires outputRow + rowBytes <= pixels.Length && x < rowBytes == |above| && |row| == x
    requires pixels[outputRow..outputRow + x] == row
    requires if outputRow == 0 then above == Zeros(rowBytes)
             else outputRow >= rowBytes && pixels[outputRow - rowBytes..outputRow] == above
    ensures value == match At(filtered, inputRow + 1 + x)
                     case None => 0
                     case Some(raw) => (raw + Predicted(filter, row, above, x)) % 256
  {
    hide Predictor, At;
    var raw := At(filtered, inputRow + x + 1);
    var left := if x >= BYTES_PER_PIXEL then pixels[outputRow + x - BYTES_PER_PIXEL] else 0;
    var up := if outputRow > 0 then pixels[outputRow + x - rowBytes] else 0;
    var upLeft :=
      if outputRow > 0 && x >= BYTES_PER_PIXEL then pixels[outputRow + x - rowBytes - BYTES_PER_PIXEL] else 0;
    assert x >= BYTES_PER_PIXEL ==> left == row[x - BYTES_PER_PIXEL];
    assert up == above[x];
    assert x >= BYTES_PER_PIXEL ==> upLeft == above[x - BYTES_PER_PIXEL];
    // A byte beyond the data is undefined: the sum is not a number, which masks to zero.
    value := if raw.None? then 0 else (raw.value + Predictor(filter, left, up, upLeft)) % 256;
  }

  /** The inner loop of `decodeRgbaPng`: one row. */
  method DecodeRow(filtered: seq<byte>, pixels: array<byte>, filter: Filter, inputRow: nat, outputRow: nat,
                   rowBytes: nat, ghost above: seq<byte>)
    requires outputRow + rowBytes <= pixels.Length && |above| == rowBytes
    requires if outputRow == 0 then above == Zeros(rowBytes)
             else outputRow >= rowBytes && pixels[outputRow - rowBytes..outputRow] == above
    modifies pixels
    ensures pixels[..outputRow] == old(pixels[..outputRow])
    ensures pixels[outputRow..outputRow + rowBytes] ==
            UnfilterRow(filter, LineAt(filtered, inputRow + 1, rowBytes), above, rowBytes)
  {
    hide Predicted, At;
    ghost var line := LineAt(filtered, inputRow + 1, rowBytes);
    ghost var before := pixels[..outputRow];
    for x := 0 to rowBytes
      invariant pixels[..outputRow] == before
      invariant pixels[outputRow..outputRow + x] == UnfilterRow(filter, line, above, x)
    {
      ghost var row := pixels[outputRow..outputRow + x];
      assert outputRow > 0 ==> pixels[outputRow - rowBytes..outputRow] == before[outputRow - rowBytes..];
      var value := DecodeByte(filtered, pixels, filter, inputRow, outputRow, rowBytes, x, row, above);
      pixels[outputRow + x] := value;
      assert pixels[..outputRow] == before;
      assert pixels[outputRow..outputRow + x + 1] == row + [value];
    }
  }

  lemma {:induction false} NoRowNoImage(filtered: seq<byte>, rowBytes: nat, h: nat, height: nat)
    requires h <= height && UnfilterImage(filtered, rowBytes, h).None?
    ensures UnfilterImage(filtered, rowBytes, height).None?
    decreases height - h
  {
    if h < height {
      NoRowNoImage(filtered, rowBytes, h, height - 1);
    }
  }

  lemma RowFits(y: nat, rowBytes: nat, height: nat)
    requires y < height
    ensures y * rowBytes + rowBytes == (y + 1) * rowBytes <= height * rowBytes
    ensures y > 0 ==> y * rowBytes - rowBytes == (y - 1) * rowBytes
  {
    MoreRows(y + 1, height, rowBytes);
  }

  lemma MoreRows(y: nat, height: nat, rowBytes: nat)
    requires y <= height
    ensures y * rowBytes <= height * rowBytes
  {
  }

  /** One turn of the outer loop. */
  method DecodeNextRow(filtered: seq<byte>, pixels: array<byte>, inputRow: nat, outputRow: nat, rowBytes: nat,
                       ghost rows: seq<seq<byte>>)
    returns (ok: bool)
    requires Rectangular(rows, rowBytes) && inputRow == |rows| * (rowBytes + 1)
    requires outputRow + rowBytes <= pixels.Length && pixels[..outputRow] == Flatten(rows)
    modifies pixels
    ensures var row := NextRow(filtered, rowBytes, rows);
            ok == row.Some? && (ok ==> pixels[..outputRow + rowBytes] == Flatten(rows + [row.value]))
  {
    hide UnfilterRow, At, LineAt, Above;
    var filter := At(filtered, inputRow);
    if rowBytes > 0 && !Supported(filter) {
      return false;
    }
    ghost var buffer := pixels[..outputRow];
    AboveInBuffer(rows, rowBytes, buffer);
    if rowBytes > 0 {
      FirstHasZeros(rows, rowBytes);
      assert outputRow > 0 ==> pixels[outputRow - rowBytes..outputRow] == buffer[outputRow - rowBytes..];
      DecodeRow(filtered, pixels, filter.value, inputRow, outputRow, rowBytes, Above(rows, |rows|, rowBytes));
    }
    ghost var row := pixels[outputRow..outputRow + rowBytes];
    NextRowIs(filtered, rowBytes, rows, row);
    assert pixels[..outputRow] == buffer;
    assert pixels[..outputRow + rowBytes] == buffer + row;
    assert (rows + [row])[..|rows|] == rows;
    ok := true;
  }

  lemma FirstHasZeros(rows: seq<seq<byte>>, rowBytes: nat)
    requires Rectangular(rows, rowBytes) && rowBytes > 0
    ensures |rows| * rowBytes == 0 <==> rows == []
    ensures rows == [] ==> Above(rows, |rows|, rowBytes) == Zeros(rowBytes)
  {
    if |rows| > 0 {
      assert |rows| * rowBytes >= rowBytes;
    }
  }

  /** The pixels of `decodeRgbaPng`; false for the unsupported-filter error. */
  method DecodePixels(filtered: seq<byte>, width: nat, height: nat) returns (ok: bool, pixels: array<byte>)
    ensures var image := UnfilterImage(filtered, width * BYTES_PER_PIXEL, height);
            && ok == image.Some?
            && (ok ==> pixels[..] == Flatten(image.value) && pixels.Length == height * (width * BYTES_PER_PIXEL))
  {
    hide NextRow, Flatten;
    var rowBytes := width * BYTES_PER_PIXEL;
    pixels := new byte[height * rowBytes](_ => 0);
    ghost var rows: seq<seq<byte>> := [];
    assert Flatten(rows) == [] by { NothingFlat(); }
    var outputRow := 0;
    for y := 0 to height
      invariant UnfilterImage(filtered, rowBytes, y) == Some(rows)
      invariant outputRow == y * rowBytes <= pixels.Length
      invariant pixels[..outputRow] == Flatten(rows)
    {
      RowFits(y, rowBytes, height);
      var going := DecodeNextRow(filtered, pixels, y * (rowBytes + 1), outputRow, rowBytes, rows);
      if !going {
        NoRowNoImage(filtered, rowBytes, y + 1, height);
        return false, pixels;
      }
      rows := rows + [NextRow(filtered, rowBytes, rows).value];
      outputRow := outputRow + rowBytes;
    }
    ok := true;
    assert pixels[..] == pixels[..outputRow];
  }

  lemma NothingFlat()
    ensures Flatten([]) == []
  {
  }

  lemma NextRowIs(filtered: seq<byte>, rowBytes: nat, rows: seq<seq<byte>>, row: seq<byte>)
    requires Rectangular(rows, rowBytes) && |row| == rowBytes
    requires var start := |rows| * (rowBytes + 1);
             rowBytes > 0 ==>
               && Supported(At(filtered, start))
               && row == UnfilterRow(At(filtered, start).value, LineAt(filtered, start + 1, rowBytes),
                                     Above(rows, |rows|, rowBytes), rowBytes)
    ensures NextRow(filtered, rowBytes, rows) == Some(row)
  {
    if rowBytes == 0 {
      assert row == [];
    }
  }

  /** The last row of the buffer so far is the row above the next. */
  lemma AboveInBuffer(rows: seq<seq<byte>>, rowBytes: nat, buffer: seq<byte>)
    requires Rectangular(rows, rowBytes) && buffer == Flatten(rows)
    ensures |buffer| == |rows| * rowBytes
    ensures |rows| > 0 ==> |buffer| >= rowBytes && buffer[|buffer| - rowBytes..] == Above(rows, |rows|, rowBytes)
  {
    FlattenLength(rows, rowBytes);
  }
}
