/** The BMP path of shared/display/ST7789Display.h: rgb565 packing, the
    little-endian header reads, the header checks, the padded row stride,
    bottom-up/top-down row addressing and the 80-pixel chunks handed to the
    panel. The panel is a recorder of the address window and of every
    writePixels call; the SD file is its bytes. */
module St7789Display {
  import opened Common

  /** lineBuffer holds 80 pixels. */
  const LINE_PIXELS: int := 80
  /** "BM" read as a little-endian 16-bit word. */
  const BMP_SIGNATURE: int := 0x4D42

  // ---------------------------------------------------------------------
  // rgb565

  /** Packs 8-bit red, green and blue into 5-6-5 bits. */
  function Rgb565(r: bv8, g: bv8, b: bv8): (c: bv16)
  {
    (((r as bv16) & 0xF8) << 8) | (((g as bv16) & 0xFC) << 3) | ((b as bv16) >> 3)
  }

  /** Red's top five bits are bits 15-11, green's top six bits 10-5, blue's
      top five bits 4-0. */
  lemma Rgb565Fields(r: bv8, g: bv8, b: bv8)
    ensures var c := Rgb565(r, g, b);
      && c >> 11 == (r >> 3) as bv16
      && (c >> 5) & 0x3F == (g >> 2) as bv16
      && c & 0x1F == (b >> 3) as bv16
  {
  }

  /** The low three bits of red and blue and the low two of green are dropped. */
  lemma Rgb565IgnoresLowBits(r: bv8, g: bv8, b: bv8)
    ensures Rgb565(r, g, b) == Rgb565(r & 0xF8, g & 0xFC, b & 0xF8)
  {
  }

  // ---------------------------------------------------------------------
  // read16 / read32

  /** File::read() at offset p: the byte, or -1 stored into a uint8_t past the end. */
  function ByteAt(data: seq<u8>, p: int): (b: u8)
    ensures 0 <= p < |data| ==> b == data[p]
    ensures p >= |data| ==> b == 0xFF
  {
    if 0 <= p < |data| then data[p] else 0xFF
  }

  /** read16 from offset p, low byte first. */
  function Read16(data: seq<u8>, p: nat): (v: u16)
    ensures p + 2 <= |data| ==> v == LE(data[p..p + 2])
    ensures p >= |data| ==> v == 0xFFFF
  {
    var v := LE16(ByteAt(data, p), ByteAt(data, p + 1));
    assert p + 2 <= |data| ==> [ByteAt(data, p), ByteAt(data, p + 1)] == data[p..p + 2];
    v
  }

  /** read32 from offset p, low byte first. */
  function Read32(data: seq<u8>, p: nat): (v: u32)
    ensures p + 4 <= |data| ==> v == LE(data[p..p + 4])
    ensures p >= |data| ==> v == 0xFFFF_FFFF
  {
    var bytes := [ByteAt(data, p), ByteAt(data, p + 1), ByteAt(data, p + 2), ByteAt(data, p + 3)];
    assert p + 4 <= |data| ==> bytes == data[p..p + 4];
    LE32(bytes[0], bytes[1], bytes[2], bytes[3])
  }

  /** (int32_t) of a uint32_t: two's complement. */
  function AsInt32(v: u32): (r: i32)
    ensures r == v || r == v - TWO_32
    ensures Wrap32(r) == v
  {
    if v >= 0x8000_0000 then v - TWO_32 else v
  }

  // ---------------------------------------------------------------------
  // Header

  /** What drawBMP keeps of an accepted header. */
  datatype BmpHeader = BmpHeader(offset: u32, width: i32, height: i32)

  /** The header reads and checks of drawBMP, the cursor moving through
      signature (0), file size (2), creator (6), pixel offset (10), DIB size
      (14), width (18), height (22), planes (26), depth (28) and compression
      (30). */
  function ParseHeader(data: seq<u8>): Option<BmpHeader>
  {
    if Read16(data, 0) != BMP_SIGNATURE then None
    else
      var offset := Read32(data, 10);
      var width := AsInt32(Read32(data, 18));
      var height := AsInt32(Read32(data, 22));
      if Read16(data, 26) != 1 then None
      else
        var depth := Read16(data, 28);
        var compression := Read32(data, 30);
        if depth != 24 || compression != 0 then None
        else Some(BmpHeader(offset, width, height))
  }

  /** A header is accepted exactly when the file has the 34 header bytes, starts
      with "BM", has one plane, 24 bits per pixel and no compression. */
  lemma ParseHeaderAccepts(data: seq<u8>)
    ensures ParseHeader(data).Some? <==>
      && |data| >= 34
      && LE(data[0..2]) == BMP_SIGNATURE
      && LE(data[26..28]) == 1
      && LE(data[28..30]) == 24
      && LE(data[30..34]) == 0
  {
  }

  /** The accepted header's fields are the little-endian words at 10, 18 and 22. */
  lemma ParseHeaderFields(data: seq<u8>)
    requires ParseHeader(data).Some?
    ensures var h := ParseHeader(data).value;
      && |data| >= 34
      && h.offset == LE(data[10..14])
      && Wrap32(h.width) == LE(data[18..22])
      && Wrap32(h.height) == LE(data[22..26])
  {
    ParseHeaderAccepts(data);
  }

  // ---------------------------------------------------------------------
  // Rows

  /** rowSize = (width * 3 + 3) & ~3, as a uint32_t: clearing the two low bits
      of a two's complement value takes it down to a multiple of 4. */
  function RowSize(width: i32): u32
  {
    var x := width * 3 + 3;
    Wrap32(x - x % 4)
  }

  /** A BMP row is padded to the next multiple of 4 bytes. */
  lemma RowSizeIsPadded(width: i32, m: int)
    requires 0 <= width && 3 * width + 3 < TWO_32
    ensures RowSize(width) % 4 == 0 && 3 * width <= RowSize(width) < 3 * width + 4
    ensures m % 4 == 0 && m >= 3 * width ==> m >= RowSize(width)
  {
    var x := width * 3 + 3;
    var padded := x - x % 4;
    assert 0 <= x % 4 <= 3 && padded % 4 == 0;
    assert 0 <= padded < TWO_32;
    assert RowSize(width) == padded;
  }

  /** A positive height means the rows are stored bottom-up. */
  predicate BottomUp(h: BmpHeader)
  {
    h.height >= 0
  }

  /** The number of rows drawn: |height|. */
  function Rows(h: BmpHeader): nat
  {
    var height: int := h.height;
    if height < 0 then -height else height
  }

  /** The number of pixels drawn per row (none for a negative width). */
  function Columns(h: BmpHeader): nat
  {
    if h.width < 0 then 0 else h.width
  }

  /** Where screen row `row` is read from, in uint32_t arithmetic. */
  function RowPos(h: BmpHeader, row: nat): u32
  {
    var stored := if BottomUp(h) then Rows(h) - 1 - row else row;
    Wrap32(h.offset + stored * RowSize(h.width))
  }

  /** Without wrap-around, a bottom-up image shows its last stored row first
      and a top-down one its first. */
  lemma RowAddressing(h: BmpHeader, row: nat)
    requires row < Rows(h) && h.offset + Rows(h) * RowSize(h.width) <= TWO_32
    ensures BottomUp(h) ==> RowPos(h, row) == h.offset + (Rows(h) - 1 - row) * RowSize(h.width)
    ensures !BottomUp(h) ==> RowPos(h, row) == h.offset + row * RowSize(h.width)
  {
    var rs, n := RowSize(h.width), Rows(h);
    if BottomUp(h) {
      StartFits(h.offset, n - 1 - row, n, rs);
    } else {
      StartFits(h.offset, row, n, rs);
    }
  }

  lemma StartFits(offset: u32, stored: nat, n: nat, rs: u32)
    requires stored < n && offset + n * rs <= TWO_32
    ensures Wrap32(offset + stored * rs) == offset + stored * rs
  {
    AddressInRange(offset, stored, n, rs);
  }

  /** A row that starts before the last one's start ends inside the 4 GiB space. */
  lemma AddressInRange(offset: nat, stored: nat, n: nat, rs: nat)
    requires offset < TWO_32 && stored < n && offset + n * rs <= TWO_32
    ensures offset + stored * rs < TWO_32
  {
    MulMonotone(stored, n - 1, rs);
    MulStep(n - 1, rs);
    if rs == 0 {
      assert stored * rs == 0;
    }
  }

  lemma MulStep(a: nat, c: nat)
    ensures a * c + c == (a + 1) * c
  {
  }

  lemma MulMonotone(a: nat, b: nat, c: nat)
    requires a <= b
    ensures a * c <= b * c
  {
  }

  /** Flipping the sign of the height draws the same rows in reverse order. */
  lemma FlippedHeightReversesRows(h: BmpHeader, row: nat)
    requires h.height > 0 && row < Rows(h)
    ensures RowPos(h, row) == RowPos(h.(height := -h.height), Rows(h) - 1 - row)
  {
  }

  // ---------------------------------------------------------------------
  // Pixels and chunks

  /** Pixel `col` of the row at `pos`: its bytes come blue, green, red. */
  function PixelAt(data: seq<u8>, pos: int, col: nat): bv16
  {
    var b := ByteAt(data, pos + 3 * col);
    var g := ByteAt(data, pos + 3 * col + 1);
    var r := ByteAt(data, pos + 3 * col + 2);
    Rgb565(r as bv8, g as bv8, b as bv8)
  }

  function RowColors(data: seq<u8>, pos: int, width: nat): (c: seq<bv16>)
    ensures |c| == width && forall col | 0 <= col < width :: c[col] == PixelAt(data, pos, col)
  {
    seq(width, col requires 0 <= col < width => PixelAt(data, pos, col))
  }

  /** A row cut into writePixels calls of at most 80 pixels. */
  function Chunks(colors: seq<bv16>): seq<seq<bv16>>
    decreases |colors|
  {
    if |colors| == 0 then []
    else if |colors| > LINE_PIXELS then [colors[..LINE_PIXELS]] + Chunks(colors[LINE_PIXELS..])
    else [colors]
  }

  function Flatten(chunks: seq<seq<bv16>>): seq<bv16>
  {
    if |chunks| == 0 then [] else chunks[0] + Flatten(chunks[1..])
  }

  /** The chunks hold the row in order, each of 1..80 pixels, all but the last
      of exactly 80. */
  lemma {:induction false} ChunksCoverRow(colors: seq<bv16>)
    ensures var c := Chunks(colors);
      && Flatten(c) == colors
      && (forall i | 0 <= i < |c| :: 1 <= |c[i]| <= LINE_PIXELS)
      && (forall i | 0 <= i < |c| - 1 :: |c[i]| == LINE_PIXELS)
    decreases |colors|
  {
    if |colors| > LINE_PIXELS {
      ChunksCoverRow(colors[LINE_PIXELS..]);
      var c := Chunks(colors);
      assert c[1..] == Chunks(colors[LINE_PIXELS..]);
      assert colors == colors[..LINE_PIXELS] + colors[LINE_PIXELS..];
    }
  }

  /** All writePixels calls for the first `rows` screen rows. */
  function DrawWrites(data: seq<u8>, h: BmpHeader, rows: nat): seq<seq<bv16>>
  {
    if rows == 0 then []
    else DrawWrites(data, h, rows - 1) + Chunks(RowColors(data, RowPos(h, rows - 1), Columns(h)))
  }

  /** setAddrWindow(x, y, width, height). */
  datatype Window = Window(x: int, y: int, width: int, height: int)

  // ---------------------------------------------------------------------
  // drawBMP

  /** drawBMP on the file's bytes (None when it does not open): false without
      drawing for a rejected header; otherwise the address window is set once
      and every row goes out in chunks of at most 80 pixels. A seek is taken
      to land anywhere, and reads past the end give 0xFF. */
  method DrawBmp(file: Option<seq<u8>>, x: int, y: int) returns (ok: bool, window: Option<Window>, writes: seq<seq<bv16>>)
    ensures ok <==> file.Some? && ParseHeader(file.value).Some?
    ensures !ok ==> window.None? && writes == []
    ensures ok ==>
      var h := ParseHeader(file.value).value;
      && window == Some(Window(x, y, h.width, Rows(h)))
      && writes == DrawWrites(file.value, h, Rows(h))
  {
    window, writes := None, [];
    if file.None? {
      return false, window, writes;
    }
    var data := file.value;
    var header := ParseHeader(data);
    if header.None? {
      return false, window, writes;
    }
    var h := header.value;
    var width, height := h.width, h.height;
    var rowSize := RowSize(width);
    var flip := true;
    var rows: int := height;
    if height < 0 {
      rows := -(height as int);
      flip := false;
    }
    window := Some(Window(x, y, width, rows));
    assert rows == Rows(h) && flip == BottomUp(h);
    writes := DrawRows(data, h, rows, flip, rowSize);
    return true, window, writes;
  }

  /** The row loop of drawBMP: each screen row is read from its stored row's
      offset and sent out through the 80-pixel line buffer. */
  method DrawRows(data: seq<u8>, h: BmpHeader, rows: int, flip: bool, rowSize: u32) returns (writes: seq<seq<bv16>>)
    requires rows == Rows(h) && flip == BottomUp(h) && rowSize == RowSize(h.width)
    ensures writes == DrawWrites(data, h, Rows(h))
  {
    writes := [];
    var lineBuffer := new bv16[LINE_PIXELS];
    for row := 0 to rows
      invariant writes == DrawWrites(data, h, row)
    {
      var pos: u32 := Wrap32(h.offset + (if flip then rows - 1 - row else row) * rowSize);
      RowPosAsComputed(h, row);
      var rowWrites := DrawRow(data, pos, h.width, lineBuffer);
      writes := writes + rowWrites;
    }
  }

  lemma RowPosAsComputed(h: BmpHeader, row: nat)
    ensures Wrap32(h.offset + (if BottomUp(h) then Rows(h) - 1 - row else row) * RowSize(h.width)) == RowPos(h, row)
    ensures Columns(h) == if h.width < 0 then 0 else h.width
  {
  }

  /** One screen row: seek to `pos`, then fill lineBuffer with at most 80
      pixels at a time and write each chunk. */
  method DrawRow(data: seq<u8>, pos: u32, width: i32, lineBuffer: array<bv16>) returns (writes: seq<seq<bv16>>)
    requires lineBuffer.Length == LINE_PIXELS
    modifies lineBuffer
    ensures writes == Chunks(RowColors(data, pos, if width < 0 then 0 else width))
  {
    ghost var colors := RowColors(data, pos, if width < 0 then 0 else width);
    writes := [];
    var col := 0;
    var p: int := pos;
    while col < width
      invariant 0 <= col <= |colors| && p == pos + 3 * col
      invariant writes + Chunks(colors[col..]) == Chunks(colors)
    {
      var chunk := if LINE_PIXELS < width - col then LINE_PIXELS else width - col;
      FillLine(data, p, chunk, lineBuffer);
      RowColorsSlice(data, pos, |colors|, col, chunk);
      ChunksFrom(colors, col, chunk);
      writes := writes + [lineBuffer[..chunk]];
      col := col + chunk;
      p := p + 3 * chunk;
    }
    assert colors[col..] == [];
  }

  /** The inner loop: `n` pixels read from `p` on into the line buffer. */
  method FillLine(data: seq<u8>, p: int, n: int, lineBuffer: array<bv16>)
    requires 0 <= n <= lineBuffer.Length
    modifies lineBuffer
    ensures lineBuffer[..n] == RowColors(data, p, n)
  {
    var q := p;
    for i := 0 to n
      invariant q == p + 3 * i
      invariant forall k | 0 <= k < i :: lineBuffer[k] == PixelAt(data, p, k)
    {
      var b := ByteAt(data, q);
      var g := ByteAt(data, q + 1);
      var r := ByteAt(data, q + 2);
      q := q + 3;
      lineBuffer[i] := Rgb565(r as bv8, g as bv8, b as bv8);
    }
  }

  /** The pixels of a row from column `col` on are the row read from col's byte. */
  lemma RowColorsSlice(data: seq<u8>, pos: int, width: nat, col: nat, n: nat)
    requires col + n <= width
    ensures RowColors(data, pos, width)[col..col + n] == RowColors(data, pos + 3 * col, n)
  {
    var c, d := RowColors(data, pos, width)[col..col + n], RowColors(data, pos + 3 * col, n);
    forall k | 0 <= k < n ensures c[k] == d[k] {
      assert pos + 3 * (col + k) == pos + 3 * col + 3 * k;
    }
  }

  /** Cutting at `col` a chunk of min(80, rest) pixels peels off the first chunk. */
  lemma ChunksFrom(colors: seq<bv16>, col: nat, n: nat)
    requires col < |colors| && n == if LINE_PIXELS < |colors| - col then LINE_PIXELS else |colors| - col
    ensures Chunks(colors[col..]) == [colors[col..col + n]] + Chunks(colors[col + n..])
  {
    var rest := colors[col..];
    assert rest[..n] == colors[col..col + n];
    assert rest[n..] == colors[col + n..];
    if |rest| <= LINE_PIXELS {
      assert rest == rest[..n] && rest[n..] == [];
    }
  }
}
