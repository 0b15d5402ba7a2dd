// The encoder as it runs: ParseImage walks the block grid, scans each block's pixels,
// builds run tables and crop boxes in local variables and drives the exporter write by
// write. Every method is proved to make exactly the calls the functions of Encoding,
// RleTable and Pack describe, so what is proved about those calls holds for the run.
module Parser {
  import opened Types
  import opened Params
  import opened Color
  import opened ColorMap
  import opened Exporter
  import opened ExportCalls
  import opened Block
  import opened Crop
  import opened Rle
  import opened Pack
  import opened RleTable
  import opened Encoding
  import opened ParserFacts
  import opened GridFacts
  import EncodingFacts

  // ------------------------------------------------------------------------------------
  // Pixels.

  /** The 4-bit index of a pixel: 0 for the transparent colour when transparency is on,
      otherwise the nearest entry of the palette. */
  method Index4(c: Ctx, rgb: u32) returns (c4: u8)
    requires c.p.bpc == 4 && PalOk(c)
    ensures c4 == C4(c, rgb)
  {
    if c.p.useTrans && rgb == c.trans {
      c4 := 0;
    } else {
      c4 := NearestColorIndex(rgb, c.pal, c.p.palCount);
    }
  }

  // ------------------------------------------------------------------------------------
  // Blocks written row by row.

  /** One column of a line: a column inside lo..hi adds its pixel at the block's depth.
      At 8 bits the GRB8 byte is written; at 4 bits the index goes into the high nibble
      of the accumulator for an even column and the low nibble for an odd one, which is
      written after an odd column or at column hi; at 1 bit a set pixel ORs in the bit
      of its buffer index modulo 8, and the byte is written after bit 7 or at column hi. */
  method EmitPixel(e: Exporter, c: Ctx, nx: int, ny: int, j: int, lo: int, hi: int, i: int,
                   byte0: u8, ghost t0: seq<Call>) returns (byte: u8)
    requires PalOk(c) && 0 <= i < c.p.sizeX
    requires var a := LineData(c.p.bpc, RowValues(c, nx, ny, j), Addr(c, nx, ny, 0, j), lo, hi, i);
      e.Valid() && e.trace == t0 + a.calls && byte0 == a.byte
    modifies e
    ensures var a := LineData(c.p.bpc, RowValues(c, nx, ny, j), Addr(c, nx, ny, 0, j), lo, hi, i + 1);
      e.Valid() && e.trace == t0 + a.calls && byte == a.byte
  {
    ghost var calls := LineData(c.p.bpc, RowValues(c, nx, ny, j), Addr(c, nx, ny, 0, j), lo, hi, i).calls;
    LineStep(c, nx, ny, j, lo, hi, i);
    byte := byte0;
    if lo <= i <= hi {
      var pixel := Addr(c, nx, ny, i, j);
      var rgb := Rgb(c, nx, ny, i, j);
      if c.p.bpc == 8 {
        var c8 := GetGBR8(rgb, c.trans);
        assert t0 + (calls + [ByteData(c8)]) == (t0 + calls) + [ByteData(c8)];
        e.Write1ByteData(c8);
      } else if c.p.bpc == 4 {
        var c4 := Index4(c, rgb);
        if i % 2 == 1 {
          byte := Or8(byte, c4);
        } else {
          byte := Or8(byte, c4 * 16);
        }
        if i % 2 == 1 || i == hi {
          assert t0 + (calls + [ByteData(byte)]) == (t0 + calls) + [ByteData(byte)];
          e.Write1ByteData(byte);
          byte := 0;
        }
      } else if c.p.bpc == 1 {
        var bit := pixel % 8;
        if c.p.useTrans {
          if rgb != c.trans {
            byte := Or8(byte, BitMask(bit));
          }
        } else {
          if rgb != 0 {
            byte := Or8(byte, BitMask(bit));
          }
        }
        if pixel % 8 == 7 || i == hi {
          assert t0 + (calls + [BitsData(byte)]) == (t0 + calls) + [BitsData(byte)];
          e.Write8BitsData(byte);
          byte := 0;
        }
      }
    }
  }

  /** One line of data: the pixels of columns lo..hi of row j at the block's depth, with
      an accumulator that starts clear. */
  method EmitLine(e: Exporter, c: Ctx, nx: int, ny: int, j: int, lo: int, hi: int)
    requires e.Valid() && PalOk(c) && c.p.sizeX >= 0
    modifies e
    ensures e.Valid() && e.trace == old(e.trace) + Line(c, nx, ny, j, lo, hi).calls
  {
    ghost var t0 := e.trace;
    ghost var vals := RowValues(c, nx, ny, j);
    ghost var base := Addr(c, nx, ny, 0, j);
    var byte: u8 := 0;
    var i := 0;
    while i < c.p.sizeX
      invariant 0 <= i <= c.p.sizeX
      invariant e.Valid() && e.trace == t0 + LineData(c.p.bpc, vals, base, lo, hi, i).calls
      invariant byte == LineData(c.p.bpc, vals, base, lo, hi, i).byte
    {
      byte := EmitPixel(e, c, nx, ny, j, lo, hi, i, byte, t0);
      i := i + 1;
    }
  }

  /** The (minX, maxX) of the non-transparent pixels of row j, (sizeX, 0) when there are
      none. */
  method ScanLine(c: Ctx, nx: int, ny: int, j: int) returns (minX: int, maxX: int)
    requires c.p.sizeX >= 0
    ensures (minX, maxX) == LineAfter(c, nx, ny, j, c.p.sizeX)
  {
    minX, maxX := c.p.sizeX, 0;
    var i := 0;
    while i < c.p.sizeX
      invariant 0 <= i <= c.p.sizeX
      invariant (minX, maxX) == LineAfter(c, nx, ny, j, i)
    {
      var rgb := Rgb(c, nx, ny, i, j);
      if rgb != c.trans {
        if i < minX {
          minX := i;
        }
        if i > maxX {
          maxX := i;
        }
      }
      i := i + 1;
    }
  }

  /** A line-crop scheme's range header: minX rounded down to even at 4 bits per colour,
      then masked to the scheme's field widths and written. */
  method WriteLineRange(e: Exporter, comp: Compressor, bpc: int, minX0: int, maxX0: int)
    returns (minX: int, maxX: int)
    requires e.Valid() && comp.IsCropLine()
    modifies e
    ensures (minX, maxX) == MaskLine(comp, bpc, (minX0, maxX0))
    ensures e.Valid() && e.trace == old(e.trace) + LineHeader(comp, (minX, maxX))
  {
    minX, maxX := minX0, maxX0;
    if bpc == 4 {
      minX := (minX % 256) / 2 * 2;
    }
    if comp == CropLine16 {
      minX := minX % 16;
      maxX := maxX % 16;
      e.Write1ByteLine(Wrap8(minX * 16 + maxX));
    } else if comp == CropLine32 {
      if minX > 7 {
        minX := 7;
      }
      maxX := maxX % 32;
      e.Write1ByteLine(Wrap8(minX * 32 + maxX));
    } else {
      e.Write2BytesLine(Wrap8(minX), Wrap8(maxX));
    }
  }

  /** Row j of a block: outside the box's rows nothing; inside, the line-crop header if
      any, then one line of data between a line begin and a line end. */
  method EmitRow(e: Exporter, c: Ctx, nx: int, ny: int, j: int, box: Box)
    requires e.Valid() && PalOk(c) && c.p.sizeX >= 0
    modifies e
    ensures e.Valid() && e.trace == old(e.trace) + RowCalls(c, nx, ny, j, box)
  {
    if box.minY <= j <= box.maxY {
      ghost var t0 := e.trace;
      var minX, maxX := box.minX, box.maxX;
      if c.p.comp.IsCropLine() {
        minX, maxX := ScanLine(c, nx, ny, j);
        minX, maxX := WriteLineRange(e, c.p.comp, c.p.bpc, minX, maxX);
      }
      ghost var head := if c.p.comp.IsCropLine() then LineHeader(c.p.comp, (minX, maxX)) else [];
      assert e.trace == t0 + head;
      e.WriteLineBegin();
      EmitLine(e, c, nx, ny, j, minX, maxX);
      e.WriteLineEnd();
      assert t0 + (head + [LineBegin] + Line(c, nx, ny, j, minX, maxX).calls + [LineEnd]) == t0 + head + [LineBegin] + Line(c, nx, ny, j, minX, maxX).calls + [LineEnd];
    }
  }

  /** The rows of a block inside its box, top to bottom. */
  method EmitRows(e: Exporter, c: Ctx, nx: int, ny: int, box: Box)
    requires e.Valid() && PalOk(c) && c.p.sizeX >= 0 && c.p.sizeY >= 0
    modifies e
    ensures e.Valid() && e.trace == old(e.trace) + RowsCalls(c, nx, ny, box, c.p.sizeY)
  {
    ghost var t0 := e.trace;
    var j := 0;
    while j < c.p.sizeY
      invariant 0 <= j <= c.p.sizeY
      invariant e.Valid() && e.trace == t0 + RowsCalls(c, nx, ny, box, j)
    {
      AppendAssoc(t0, RowsCalls(c, nx, ny, box, j), RowCalls(c, nx, ny, j, box));
      EmitRow(e, c, nx, ny, j, box);
      j := j + 1;
    }
  }

  /** The box and count of the opaque pixels of a block, scanned row by row: under a crop
      scheme from the empty box (sizeX, 0, sizeY, 0), otherwise the whole block with
      only the count updated. */
  method ScanBox(c: Ctx, nx: int, ny: int) returns (b: Box)
    requires c.p.sizeX >= 0 && c.p.sizeY >= 0
    ensures b == BlockBox(c, nx, ny)
  {
    var minX, maxX, minY, maxY := 0, c.p.sizeX - 1, 0, c.p.sizeY - 1;
    var count := 0;
    if c.p.comp.IsCrop() {
      minX, maxX, minY, maxY := c.p.sizeX, 0, c.p.sizeY, 0;
    }
    var j := 0;
    while j < c.p.sizeY
      invariant 0 <= j <= c.p.sizeY
      invariant Box(minX, maxX, minY, maxY, count) == BoxAfter(c, nx, ny, j, 0)
    {
      var i := 0;
      while i < c.p.sizeX
        invariant 0 <= i <= c.p.sizeX
        invariant Box(minX, maxX, minY, maxY, count) == BoxAfter(c, nx, ny, j, i)
      {
        var rgb := Rgb(c, nx, ny, i, j);
        if rgb != c.trans {
          if c.p.comp.IsCrop() {
            if i < minX {
              minX := i;
            }
            if i > maxX {
              maxX := i;
            }
            if j < minY {
              minY := j;
            }
            if j > maxY {
              maxY := j;
            }
          }
          count := count + 1;
        }
        i := i + 1;
      }
      j := j + 1;
    }
    b := Box(minX, maxX, minY, maxY, count);
  }

  /** A crop scheme's block header: the box masked to the scheme's field widths, then
      written. */
  method WriteBoxHeader(e: Exporter, comp: Compressor, b: Box) returns (m: Box)
    requires e.Valid() && comp.IsCrop()
    modifies e
    ensures m == MaskBox(comp, b)
    ensures e.Valid() && e.trace == old(e.trace) + BoxHeader(comp, m)
  {
    match comp {
      case Crop16 =>
        m := Box(b.minX % 16, b.maxX % 16, b.minY % 16, b.maxY % 16, b.count);
        e.Write2BytesLine(Wrap8(m.minX * 16 + m.maxX), Wrap8(m.minY * 16 + m.maxY));
      case CropLine16 =>
        m := b.(minY := b.minY % 16, maxY := b.maxY % 16);
        e.Write1ByteLine(Wrap8(m.minY * 16 + m.maxY));
      case Crop32 =>
        m := Box(Min7(b.minX), b.maxX % 32, Min7(b.minY), b.maxY % 32, b.count);
        e.Write2BytesLine(Wrap8(m.minX * 32 + m.maxX), Wrap8(m.minY * 32 + m.maxY));
      case CropLine32 =>
        m := b.(minY := Min7(b.minY), maxY := b.maxY % 32);
        e.Write1ByteLine(Wrap8(m.minY * 32 + m.maxY));
      case Crop256 =>
        m := b;
        e.Write4BytesLine(Wrap8(m.minX), Wrap8(m.maxX), Wrap8(m.minY), Wrap8(m.maxY));
      case CropLine256 =>
        m := b;
        e.Write2BytesLine(Wrap8(m.minY), Wrap8(m.maxY));
    }
  }

  /** The box a block without run-length encoding is written in: the whole block
      without transparency; with it the scanned box, where an empty block is skipped
      under skipEmpty and otherwise a crop scheme writes its header. */
  method PlainBox(e: Exporter, c: Ctx, nx: int, ny: int) returns (box: Box, skipped: bool)
    requires e.Valid() && c.p.sizeX >= 0 && c.p.sizeY >= 0
    modifies e
    ensures skipped <==> c.p.useTrans && BlockBox(c, nx, ny).count == 0 && c.p.skipEmpty
    ensures !skipped ==> box == DataBox(c, nx, ny)
    ensures e.Valid()
    ensures e.trace == old(e.trace) + (if !skipped && c.p.useTrans && c.p.comp.IsCrop() then BoxHeader(c.p.comp, box) else [])
  {
    box := Box(0, c.p.sizeX - 1, 0, c.p.sizeY - 1, 0);
    skipped := false;
    if c.p.useTrans {
      box := ScanBox(c, nx, ny);
      if box.count == 0 {
        if c.p.skipEmpty {
          skipped := true;
          return;
        } else if c.p.comp.IsCrop() {
          box := Box(0, 0, 0, 0, 0);
        }
      }
      if c.p.comp.IsCrop() {
        box := WriteBoxHeader(e, c.p.comp, box);
      }
    }
  }

  /** A block without run-length encoding: its box (or nothing, for a skipped block),
      then the rows inside it. */
  method EmitPlainBlock(e: Exporter, c: Ctx, nx: int, ny: int) returns (skipped: bool)
    requires e.Valid() && PalOk(c) && c.p.sizeX >= 0 && c.p.sizeY >= 0
    modifies e
    ensures skipped <==> c.p.useTrans && BlockBox(c, nx, ny).count == 0 && c.p.skipEmpty
    ensures e.Valid()
    ensures !skipped ==>
      e.trace == old(e.trace)
        + (if c.p.useTrans && c.p.comp.IsCrop() then BoxHeader(c.p.comp, DataBox(c, nx, ny)) else [])
        + RowsCalls(c, nx, ny, DataBox(c, nx, ny), c.p.sizeY)
    ensures skipped ==> e.trace == old(e.trace)
  {
    var box;
    box, skipped := PlainBox(e, c, nx, ny);
    if !skipped {
      EmitRows(e, c, nx, ny, box);
    }
  }

  // ------------------------------------------------------------------------------------
  // Blocks written as run tables.

  /** One pixel into the run table. RLE0 extends the last run when the pixel and the
      run are both transparent or both opaque (keeping an opaque pixel in the run's data);
      RLE4 and RLE8 extend it when the pixel has its colour; a full run, or a pixel that
      does not belong, opens a new run of length 1. */
  method AddPixel(comp: Compressor, trans: u32, maxLength: int, runs0: seq<Run>, rgb: u32)
    returns (runs: seq<Run>)
    requires comp.IsRLE() && maxLength == MaxRunLength(comp)
    ensures runs == Step(comp, trans, runs0, rgb)
  {
    runs := runs0;
    if comp == RLE0 {
      if |runs| != 0 && rgb == trans && runs[|runs| - 1].color == trans && runs[|runs| - 1].length < maxLength {
        runs := runs[|runs| - 1 := runs[|runs| - 1].(length := runs[|runs| - 1].length + 1)];
      } else if |runs| != 0 && rgb != trans && runs[|runs| - 1].color != trans && runs[|runs| - 1].length < maxLength {
        runs := runs[|runs| - 1 := runs[|runs| - 1].(length := runs[|runs| - 1].length + 1,
                                                     data := runs[|runs| - 1].data + [rgb])];
      } else {
        runs := runs + [Run(1, rgb, [rgb])];
      }
    } else {
      if |runs| != 0 && rgb == runs[|runs| - 1].color && runs[|runs| - 1].length < maxLength {
        runs := runs[|runs| - 1 := runs[|runs| - 1].(length := runs[|runs| - 1].length + 1)];
      } else {
        runs := runs + [Run(1, rgb, [])];
      }
    }
  }

  /** The pixels of line j added to the run table of the lines above it. */
  method AddLine(c: Ctx, nx: int, ny: int, j: int, maxLength: int, runs0: seq<Run>)
    returns (runs: seq<Run>)
    requires c.p.comp.IsRLE() && maxLength == MaxRunLength(c.p.comp)
    requires c.p.sizeX >= 0 && 0 <= j
    requires runs0 == Runs(c.p.comp, c.trans, Scan(c, nx, ny, j, 0))
    ensures runs == Runs(c.p.comp, c.trans, Scan(c, nx, ny, j + 1, 0))
  {
    runs := runs0;
    var i := 0;
    while i < c.p.sizeX
      invariant 0 <= i <= c.p.sizeX
      invariant runs == Runs(c.p.comp, c.trans, Scan(c, nx, ny, j, i))
    {
      var rgb := Rgb(c, nx, ny, i, j);
      RunsScanStep(c, nx, ny, j, i);
      runs := AddPixel(c.p.comp, c.trans, maxLength, runs, rgb);
      i := i + 1;
    }
    ScanRowDone(c, nx, ny, j);
  }

  /** The run table of a block: its pixels in scan order, each one extending the last run
      or opening a new one, with runs capped at the scheme's maximum length. */
  method BuildRuns(c: Ctx, nx: int, ny: int) returns (runs: seq<Run>)
    requires c.p.comp.IsRLE() && c.p.sizeX >= 0 && c.p.sizeY >= 0
    ensures runs == Runs(c.p.comp, c.trans, ScanRows(c, nx, ny, c.p.sizeY))
  {
    var maxLength;
    match c.p.comp {
      case RLE0 => maxLength := 0x7F;
      case RLE4 => maxLength := 0x0F;
      case _ => maxLength := 0xFF;
    }
    runs := [];
    ScanRowStart(c, nx, ny, 0);
    var j := 0;
    while j < c.p.sizeY
      invariant 0 <= j <= c.p.sizeY
      invariant runs == Runs(c.p.comp, c.trans, Scan(c, nx, ny, j, 0))
    {
      runs := AddLine(c, nx, ny, j, maxLength, runs);
      j := j + 1;
    }
    ScanRowStart(c, nx, ny, j);
  }

  /** Pixel l of an opaque RLE0 run at 4 bits per colour: its index goes into the high
      nibble for an even l and the low nibble for an odd one; the byte is written after
      an odd l or at the run's last pixel. */
  method EmitRunPixel(e: Exporter, c: Ctx, data: seq<u32>, l: int, byte0: u8,
                      ghost t0: seq<Call>, ghost v: seq<u8>) returns (byte: u8)
    requires PalOk(c) && c.p.bpc == 4 && 0 <= l < |data| && v == RunValues(c, data)
    requires var a := Fold4(v, 0, |v| - 1, l);
      e.Valid() && e.trace == t0 + a.calls && byte0 == a.byte
    modifies e
    ensures var a := Fold4(v, 0, |v| - 1, l + 1);
      e.Valid() && e.trace == t0 + a.calls && byte == a.byte
  {
    ghost var calls := Fold4(v, 0, |v| - 1, l).calls;
    Fold4Step(v, l);
    var c4 := Index4(c, data[l]);
    byte := byte0;
    if l % 2 == 1 {
      byte := Or8(byte, c4);
    } else {
      byte := Or8(byte, c4 * 16);
    }
    if l % 2 == 1 || l == |data| - 1 {
      assert t0 + (calls + [ByteData(byte)]) == (t0 + calls) + [ByteData(byte)];
      e.Write1ByteData(byte);
      byte := 0;
    }
  }

  /** The pixels of an opaque RLE0 run at 4 bits per colour, two indices per byte. */
  method EmitOpaqueRun4(e: Exporter, c: Ctx, data: seq<u32>)
    requires e.Valid() && PalOk(c) && c.p.bpc == 4
    modifies e
    ensures e.Valid() && e.trace == old(e.trace) + OpaqueRun4(c, data)
  {
    ghost var t0 := e.trace;
    ghost var v := RunValues(c, data);
    var byte: u8 := 0;
    var l := 0;
    while l < |data|
      invariant 0 <= l <= |data|
      invariant e.Valid() && e.trace == t0 + Fold4(v, 0, |v| - 1, l).calls
      invariant byte == Fold4(v, 0, |v| - 1, l).byte
    {
      byte := EmitRunPixel(e, c, data, l, byte, t0, v);
      l := l + 1;
    }
  }

  /** The pixels of an opaque RLE0 run at 4 bits per colour as the loop is written: every
      pixel l takes the index of the run's colour, ORed into the high nibble for an even l
      and the low nibble for an odd one; the byte starts from the uninitialised value
      garbage and is written, then cleared, after an odd l or at the run's last pixel. */
  method EmitOpaqueRun4AsWritten(e: Exporter, c: Ctx, r: Run)
    requires e.Valid() && PalOk(c) && c.p.bpc == 4
    modifies e
    ensures e.Valid() && e.trace == old(e.trace) + OpaqueRun4AsWritten(c, r)
  {
    ghost var t0 := e.trace;
    ghost var x := C4(c, r.color);
    var byte: u8 := c.garbage;
    var l := 0;
    while l < |r.data|
      invariant 0 <= l <= |r.data|
      invariant e.Valid() && e.trace == t0 + RunPack(x, c.garbage, |r.data|, l).calls
      invariant byte == RunPack(x, c.garbage, |r.data|, l).byte
    {
      ghost var calls := RunPack(x, c.garbage, |r.data|, l).calls;
      var c4 := Index4(c, r.color);
      if l % 2 == 1 {
        byte := Or8(byte, c4);
      } else {
        byte := Or8(byte, c4 * 16);
      }
      if l % 2 == 1 || l == |r.data| - 1 {
        assert t0 + (calls + [ByteData(byte)]) == (t0 + calls) + [ByteData(byte)];
        e.Write1ByteData(byte);
        byte := 0;
      }
      l := l + 1;
    }
  }

  /** The pixels of an opaque RLE0 run at 8 bits per colour, one GRB8 byte each. */
  method EmitOpaqueRun8(e: Exporter, c: Ctx, data: seq<u32>)
    requires e.Valid()
    modifies e
    ensures e.Valid() && e.trace == old(e.trace) + GbrCalls(c.trans, data)
  {
    ghost var t0 := e.trace;
    var l := 0;
    while l < |data|
      invariant 0 <= l <= |data|
      invariant e.Valid() && e.trace == t0 + GbrCalls(c.trans, data[..l])
    {
      var c8 := GetGBR8(data[l], c.trans);
      GbrSnoc(t0, c.trans, data, l);
      e.Write1ByteData(c8);
      l := l + 1;
    }
    assert data[..l] == data;
  }

  /** The data of one run between its line begin and end: RLE0 writes a transparent run
      as 0x80 plus its length and an opaque one as its length then its pixels; RLE4 one
      byte [length:4|index:4]; RLE8 the length then the colour byte. */
  method EmitRunData(e: Exporter, c: Ctx, r: Run)
    requires e.Valid() && PalOk(c)
    modifies e
    ensures e.Valid() && e.trace == old(e.trace) + RunData(c, r)
  {
    var len := Wrap8(r.length);
    match c.p.comp {
      case RLE0 =>
        if r.color == c.trans {
          assert RunData(c, r) == [ByteData(Wrap8(0x80 + len as int))];
          e.Write1ByteData(Wrap8(0x80 + len as int));
        } else {
          e.Write1ByteData(len);
          if c.p.bpc == 4 {
            EmitOpaqueRun4AsWritten(e, c, r);
            assert old(e.trace) + ([ByteData(len)] + OpaqueRun4AsWritten(c, r)) == (old(e.trace) + [ByteData(len)]) + OpaqueRun4AsWritten(c, r);
          } else if c.p.bpc == 8 {
            EmitOpaqueRun8(e, c, r.data);
            assert old(e.trace) + ([ByteData(len)] + GbrCalls(c.trans, r.data)) == (old(e.trace) + [ByteData(len)]) + GbrCalls(c.trans, r.data);
          } else {
            assert RunData(c, r) == [ByteData(len)] + [];
          }
        }
      case RLE4 =>
        if c.p.bpc == 4 {
          var c4 := Index4(c, r.color);
          e.Write1ByteData(Wrap8((r.length % 16) * 16 + c4));
        } else {
          assert old(e.trace) + [] == old(e.trace);
        }
      case RLE8 =>
        if c.p.bpc == 4 {
          e.Write1ByteData(len);
          var c4 := Index4(c, r.color);
          e.Write1ByteData(c4);
          assert old(e.trace) + [ByteData(len)] + [ByteData(c4)] == old(e.trace) + [ByteData(len), ByteData(c4)];
        } else if c.p.bpc == 8 {
          e.Write1ByteData(len);
          var c8 := GetGBR8(r.color, c.trans);
          e.Write1ByteData(c8);
          assert old(e.trace) + [ByteData(len)] + [ByteData(c8)] == old(e.trace) + [ByteData(len), ByteData(c8)];
        } else {
          assert old(e.trace) + [] == old(e.trace);
        }
      case _ =>
        assert old(e.trace) + [] == old(e.trace);
    }
  }

  /** The run table, one line per run in table order. */
  method EmitRuns(e: Exporter, c: Ctx, runs: seq<Run>)
    requires e.Valid() && PalOk(c)
    modifies e
    ensures e.Valid() && e.trace == old(e.trace) + RunsCalls(c, runs)
  {
    ghost var t0 := e.trace;
    var k := 0;
    while k < |runs|
      invariant 0 <= k <= |runs|
      invariant e.Valid() && e.trace == t0 + RunsCalls(c, runs[..k])
    {
      RunsCallsSnoc(c, runs, k);
      AppendAssoc(t0, RunsCalls(c, runs[..k]), [LineBegin] + RunData(c, runs[k]) + [LineEnd]);
      ghost var t1 := e.trace;
      e.WriteLineBegin();
      EmitRunData(e, c, runs[k]);
      e.WriteLineEnd();
      LineRegroup(t1, RunData(c, runs[k]));
      k := k + 1;
    }
    assert runs[..k] == runs;
  }

  // ------------------------------------------------------------------------------------
  // The grid and the tables.

  /** One block after its sprite header: its run table under a run-length scheme,
      otherwise its box and rows; the result says whether it was skipped. */
  method EmitBlock(e: Exporter, c: Ctx, nx: int, ny: int) returns (skipped: bool)
    requires e.Valid() && PalOk(c) && c.p.sizeX >= 0 && c.p.sizeY >= 0
    modifies e
    ensures skipped <==> BlockCalls(c, nx, ny).Skipped?
    ensures e.Valid() && e.trace == old(e.trace) + Out(BlockCalls(c, nx, ny))
  {
    if c.p.comp.IsRLE() {
      var runs := BuildRuns(c, nx, ny);
      EmitRuns(e, c, runs);
      skipped := false;
    } else {
      skipped := EmitPlainBlock(e, c, nx, ny);
      if skipped {
        assert old(e.trace) + [] == old(e.trace);
      } else {
        ghost var box := DataBox(c, nx, ny);
        AppendAssoc(old(e.trace), if c.p.useTrans && c.p.comp.IsCrop() then BoxHeader(c.p.comp, box) else [],
                    RowsCalls(c, nx, ny, box, c.p.sizeY));
      }
    }
  }

  /** The optional header table: block size, grid size, bits per colour, scheme code and
      skip flag, each cast to its field width. */
  method WriteHeaderTable(e: Exporter, c: Ctx)
    requires e.Valid()
    modifies e
    ensures e.Valid() && e.trace == old(e.trace) + HeaderTable(c)
  {
    if c.p.addHeader {
      ghost var t0 := e.trace;
      ghost var sizes := [TableBegin, TwoWordsLine(Wrap16(c.p.sizeX), Wrap16(c.p.sizeY)),
                          TwoWordsLine(Wrap16(c.p.numX), Wrap16(c.p.numY))];
      ghost var codes := [ByteLine(Wrap8(c.p.bpc)), ByteLine(c.compCode), ByteLine(if c.p.skipEmpty then 1 else 0)];
      e.WriteTableBegin();
      e.Write2WordsLine(Wrap16(c.p.sizeX), Wrap16(c.p.sizeY));
      e.Write2WordsLine(Wrap16(c.p.numX), Wrap16(c.p.numY));
      assert t0 + [sizes[0]] + [sizes[1]] + [sizes[2]] == t0 + [sizes[0], sizes[1], sizes[2]];
      ghost var t1 := e.trace;
      e.Write1ByteLine(Wrap8(c.p.bpc));
      e.Write1ByteLine(c.compCode);
      e.Write1ByteLine(if c.p.skipEmpty then 1 else 0);
      assert t1 + [codes[0]] + [codes[1]] + [codes[2]] == t1 + [codes[0], codes[1], codes[2]];
      e.WriteTableEnd();
      assert HeaderTable(c) == sizes + codes + [TableEnd];
      assert t0 + sizes + codes + [TableEnd] == t0 + (sizes + codes + [TableEnd]);
    } else {
      assert old(e.trace) + [] == old(e.trace);
    }
  }

  /** The optional font header: data size [8|sizeY:4], font size [fontX:4|fontY:4], and
      the first and last character codes. */
  method WriteFontHeader(e: Exporter, c: Ctx)
    requires e.Valid()
    modifies e
    ensures e.Valid() && e.trace == old(e.trace) + FontHeader(c)
  {
    if c.p.addFont {
      e.WriteCommentLine();
      e.Write1ByteLine(Wrap8(0x80 + c.p.sizeY % 16));
      e.Write1ByteLine(Wrap8((c.p.fontX % 16) * 16 + c.p.fontY % 16));
      e.Write1ByteLine(Wrap8(c.p.fontFirst));
      e.Write1ByteLine(Wrap8(c.p.fontLast));
    } else {
      assert old(e.trace) + [] == old(e.trace);
    }
  }

  /** Everything before the first block: the file header, the header table, the start of
      the data table and the font header. */
  method WritePreamble(e: Exporter, c: Ctx)
    requires e.Valid()
    modifies e
    ensures e.Valid() && e.trace == old(e.trace) + Preamble(c)
  {
    e.WriteHeader();
    WriteHeaderTable(e, c);
    e.WriteTableBegin();
    WriteFontHeader(e, c);
    assert old(e.trace) + [Header] + HeaderTable(c) + [TableBegin] + FontHeader(c) == old(e.trace) + ([Header] + HeaderTable(c) + [TableBegin] + FontHeader(c));
  }

  /** Block (nx, ny), number k: its index entry is the 16-bit total before its sprite
      header, replaced by noEntry when the block is skipped. */
  method WriteGridBlock(e: Exporter, c: Ctx, sprtAddr: array<u16>, nx: int, ny: int, k: int)
    requires PalOk(c) && c.p.sizeX >= 0 && c.p.sizeY >= 0
    requires 0 <= k < sprtAddr.Length && e.Valid()
    modifies e, sprtAddr
    ensures e.Valid() && e.trace == old(e.trace) + ([SpriteHeader(k)] + Out(BlockCalls(c, nx, ny)))
    ensures sprtAddr[..k] == old(sprtAddr[..k])
    ensures sprtAddr[k] == EntryOf(BlockCalls(c, nx, ny), Size(old(e.trace)), c.noEntry)
  {
    var total := e.GetTotalBytes();
    Wrap16OfWrap32(Size(e.trace));
    sprtAddr[k] := Wrap16(total as int);
    e.WriteSpriteHeader(k);
    var skipped := EmitBlock(e, c, nx, ny);
    if skipped {
      sprtAddr[k] := c.noEntry;
    }
    AppendAssoc(old(e.trace), [SpriteHeader(k)], Out(BlockCalls(c, nx, ny)));
  }

  /** The same block as a step of the grid: the blocks before it are `outs`. */
  method EmitGridBlock(e: Exporter, c: Ctx, sprtAddr: array<u16>, nx: int, ny: int, k: int,
                       ghost f: (int, int) -> BlockOut, ghost t0: seq<Call>, ghost outs: seq<BlockOut>)
    requires PalOk(c) && c.p.sizeX >= 0 && c.p.sizeY >= 0 && Outcomes(c, f)
    requires 0 <= k < sprtAddr.Length && |outs| == k && Done(e, c, sprtAddr, t0, outs)
    modifies e, sprtAddr
    ensures Done(e, c, sprtAddr, t0, outs + [f(nx, ny)])
  {
    WriteGridBlock(e, c, sprtAddr, nx, ny, k);
    GridEntryStep(t0, outs, BlockCalls(c, nx, ny), c.noEntry, old(e.trace), e.trace, sprtAddr[..]);
  }

  /** The exporter has made the calls of the blocks `outs` since the trace t0, and sprtAddr
      starts with their index entries. */
  ghost predicate Done(e: Exporter, c: Ctx, sprtAddr: array<u16>, t0: seq<Call>, outs: seq<BlockOut>)
    reads e, sprtAddr
  {
    && |outs| <= sprtAddr.Length && e.Valid() && e.trace == t0 + Grid(outs)
    && sprtAddr[..|outs|] == Entries(outs, Size(t0), c.noEntry)
  }

  /** Done for rows 0..ny-1 of the grid of blocks `f`. */
  ghost predicate RowsDone(e: Exporter, c: Ctx, sprtAddr: array<u16>, f: (int, int) -> BlockOut,
                           t0: seq<Call>, ny: nat)
    requires Encodable(c)
    reads e, sprtAddr
  {
    Done(e, c, sprtAddr, t0, GridCells(f, c.p.numX, ny))
  }

  /** The blocks row by row, each row left to right; sprtAddr receives the index table.
      `f` stands for the blocks' outcomes (see Outcomes). */
  method EmitGrid(e: Exporter, c: Ctx, sprtAddr: array<u16>, ghost f: (int, int) -> BlockOut)
    requires Encodable(c) && Outcomes(c, f) && sprtAddr.Length == NumBlocks(c) && e.Valid()
    modifies e, sprtAddr
    ensures var outs := GridCells(f, c.p.numX, c.p.numY);
      e.Valid() && e.trace == old(e.trace) + Grid(outs) &&
      sprtAddr[..] == Entries(outs, Size(old(e.trace)), c.noEntry)
  {
    ghost var t0 := e.trace;
    assert GridCells(f, c.p.numX, 0) == [] && Grid([]) == [] && sprtAddr[..0] == [];
    var ny := 0;
    while ny < c.p.numY
      invariant 0 <= ny <= c.p.numY && RowsDone(e, c, sprtAddr, f, t0, ny)
    {
      EmitGridRow(e, c, sprtAddr, ny, f, t0);
      ny := ny + 1;
    }
    GridLength(f, c.p.numX, c.p.numY, GridCells(f, c.p.numX, c.p.numY));
    assert sprtAddr[..][..NumBlocks(c)] == sprtAddr[..];
  }

  /** Row ny of the grid, left to right, after the blocks of the rows above it. */
  method EmitGridRow(e: Exporter, c: Ctx, sprtAddr: array<u16>, ny: int, ghost f: (int, int) -> BlockOut,
                     ghost t0: seq<Call>)
    requires Encodable(c) && Outcomes(c, f) && sprtAddr.Length == NumBlocks(c) && 0 <= ny < c.p.numY
    requires RowsDone(e, c, sprtAddr, f, t0, ny)
    modifies e, sprtAddr
    ensures RowsDone(e, c, sprtAddr, f, t0, ny + 1)
  {
    ghost var outs0 := GridCells(f, c.p.numX, ny);
    GridRowBounds(f, c.p.numX, c.p.numY, ny, outs0, sprtAddr.Length);
    ghost var outs := outs0;
    var nx := 0;
    while nx < c.p.numX
      invariant 0 <= nx <= c.p.numX && |outs| == |outs0| + nx
      invariant outs == outs0 + RowCells(f, ny, nx) && Done(e, c, sprtAddr, t0, outs)
    {
      EmitGridBlock(e, c, sprtAddr, nx, ny, nx + ny * c.p.numX, f, t0, outs);
      RowSnoc(outs0, f, ny, nx);
      outs := outs + [f(nx, ny)];
      nx := nx + 1;
    }
    GridRowStep(f, c.p.numX, ny, outs0, outs);
  }

  /** The optional index table: one word per block. */
  method WriteIndex(e: Exporter, c: Ctx, sprtAddr: array<u16>)
    requires e.Valid()
    modifies e
    ensures e.Valid() && e.trace == old(e.trace) + IndexTable(c, sprtAddr[..])
  {
    if c.p.addIndex {
      e.WriteTableBegin();
      ghost var t1 := e.trace;
      var i := 0;
      while i < sprtAddr.Length
        invariant 0 <= i <= sprtAddr.Length
        invariant e.Valid() && e.trace == t1 + IndexCalls(sprtAddr[..i])
      {
        e.Write1WordLine(sprtAddr[i]);
        assert sprtAddr[..i + 1] == sprtAddr[..i] + [sprtAddr[i]];
        EncodingFacts.IndexCallsSnoc(sprtAddr[..i], sprtAddr[i]);
        assert t1 + (IndexCalls(sprtAddr[..i]) + [WordLine(sprtAddr[i])]) == (t1 + IndexCalls(sprtAddr[..i])) + [WordLine(sprtAddr[i])];
        i := i + 1;
      }
      e.WriteTableEnd();
      assert sprtAddr[..i] == sprtAddr[..];
      assert old(e.trace) + [TableBegin] + IndexCalls(sprtAddr[..]) + [TableEnd] == old(e.trace) + ([TableBegin] + IndexCalls(sprtAddr[..]) + [TableEnd]);
    } else {
      assert old(e.trace) + [] == old(e.trace);
    }
  }

  /** The custom palette table at 4 bits per colour: entries 1..palCount, each as
      [0|R:3|0|B:3] then [0:5|G:3]. */
  method WritePalette(e: Exporter, c: Ctx)
    requires e.Valid() && PalOk(c)
    modifies e
    ensures e.Valid() && e.trace == old(e.trace) + PaletteTable(c)
  {
    if c.p.bpc == 4 && c.p.palType == PaletteCustom {
      e.WriteTableBegin();
      ghost var t1 := e.trace;
      var i := 1;
      while i <= c.p.palCount
        invariant 1 <= i && (i <= c.p.palCount + 1 || i == 1)
        invariant e.Valid() && e.trace == t1 + PaletteCalls(c.pal, i - 1)
      {
        var color := FromU32(c.pal[i]);
        var c1 := (color.R / 32) * 16 + color.B / 32;
        var c2 := color.G / 32;
        e.Write2BytesLine(c1, c2);
        PaletteCallsSnoc(c.pal, i - 1);
        assert t1 + (PaletteCalls(c.pal, i - 1) + [PaletteEntry(c.pal[i])]) == (t1 + PaletteCalls(c.pal, i - 1)) + [PaletteEntry(c.pal[i])];
        i := i + 1;
      }
      e.WriteTableEnd();
      assert old(e.trace) + [TableBegin] + PaletteCalls(c.pal, if c.p.palCount < 0 then 0 else c.p.palCount) + [TableEnd] == old(e.trace) + ([TableBegin] + PaletteCalls(c.pal, if c.p.palCount < 0 then 0 else c.p.palCount) + [TableEnd]);
    } else {
      assert old(e.trace) + [] == old(e.trace);
    }
  }

  /** Entry 0 of the custom palette is black; entries 1..count are the quantiser's colours. */
  method FillCustomPalette(quant: seq<u32>, count: int) returns (pal: seq<u32>)
    requires 0 <= count <= |quant|
    ensures pal == CustomPalette(quant, count)
  {
    pal := [0];
    var k := 0;
    while k < count
      invariant 0 <= k <= count
      invariant pal == [0] + quant[..k]
    {
      assert quant[..k + 1] == quant[..k] + [quant[k]];
      pal := pal + [quant[k]];
      k := k + 1;
    }
  }

  /** The tables of one encoding run: the preamble, the grid of blocks with its index
      entries, the end of the data table, then the index and palette tables. */
  method EncodeImage(e: Exporter, c: Ctx)
    requires Encodable(c) && e.Valid()
    modifies e
    ensures e.Valid() && e.trace == old(e.trace) + ParseCalls(c, Size(old(e.trace)))
  {
    BlockFnOutcomes(c);
    EncodeRun(e, c, BlockFn(c));
  }

  /** The same run with the blocks' outcomes given by `f` (see Outcomes). */
  method EncodeRun(e: Exporter, c: Ctx, ghost f: (int, int) -> BlockOut)
    requires Encodable(c) && Outcomes(c, f) && e.Valid()
    modifies e
    ensures e.Valid() && e.trace == old(e.trace) + ImageCalls(c, f, Size(old(e.trace)))
  {
    ghost var t0 := e.trace;
    WritePreamble(e, c);
    ghost var t1 := e.trace;
    var sprtAddr := EncodeGrid(e, c, f);
    ghost var t2 := e.trace;
    WriteTables(e, c, sprtAddr);
    RunAssembled(c, f, t0, t1, t2, e.trace, sprtAddr[..]);
  }

  /** The grid of blocks, and a fresh array with its index entries. */
  method EncodeGrid(e: Exporter, c: Ctx, ghost f: (int, int) -> BlockOut) returns (sprtAddr: array<u16>)
    requires Encodable(c) && Outcomes(c, f) && e.Valid()
    modifies e
    ensures fresh(sprtAddr)
    ensures var outs := GridCells(f, c.p.numX, c.p.numY);
      e.Valid() && e.trace == old(e.trace) + Grid(outs) &&
      sprtAddr[..] == Entries(outs, Size(old(e.trace)), c.noEntry)
  {
    GridSize(c.p.numX, c.p.numY);
    sprtAddr := new u16[NumBlocks(c)];
    EmitGrid(e, c, sprtAddr, f);
  }

  /** The end of the data table, then the index and palette tables. */
  method WriteTables(e: Exporter, c: Ctx, sprtAddr: array<u16>)
    requires PalOk(c) && e.Valid()
    modifies e
    ensures e.Valid() && e.trace == old(e.trace) + Tables(c, sprtAddr[..])
  {
    e.WriteTableEnd();
    WriteIndex(e, c, sprtAddr);
    WritePalette(e, c);
    TablesParts(c, sprtAddr[..]);
    assert old(e.trace) + [TableEnd] + IndexTable(c, sprtAddr[..]) + PaletteTable(c) == old(e.trace) + ([TableEnd] + IndexTable(c, sprtAddr[..]) + PaletteTable(c));
  }

  /** One encoding run: the palette and context from the parameters, the tables, then the
      export, which succeeds as the exporter's kind and the file system allow. */
  method ParseImage(e: Exporter, p: ExportParameters, img: Image, quant: seq<u32>, garbage: u8,
                    noEntry: u16, compCode: u8, fileWritten: bool) returns (ok: bool)
    requires img.width >= 0 && img.height >= 0
    requires p.bpc == 4 && p.palType == PaletteCustom ==> 0 <= p.palCount <= |quant|
    requires Encodable(ParseContext(p, img, quant, garbage, noEntry, compCode))
    requires e.Valid()
    modifies e
    ensures e.Valid()
    ensures e.trace == old(e.trace) + ParseCalls(ParseContext(p, img, quant, garbage, noEntry, compCode), Size(old(e.trace)))
    ensures ok <==> e.kind == Dummy || fileWritten
  {
    var pal := quant;
    if p.palType == MSX1 {
      pal := PaletteMSX();
    } else if p.bpc == 4 && p.palType == PaletteCustom {
      pal := FillCustomPalette(quant, p.palCount);
    }
    var c := Ctx(WholeImage(p, img.width, img.height), img, p.transColor % 0x100_0000, pal, garbage, noEntry, compCode);
    assert c == ParseContext(p, img, quant, garbage, noEntry, compCode);
    EncodeImage(e, c);
    ok := e.Export(fileWritten);
  }
}
