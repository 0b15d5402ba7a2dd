// What an encoding run writes: the calls the encoder makes on its exporter, as functions of
// the parameters and the image. A block is either run-length encoded (its run table, one
// line per run) or written row by row inside its crop box, each row packed at 8, 4 or 1
// bits per colour. The blocks are walked row-major and each one's start offset goes into
// the index table.
module Encoding {
  import opened Types
  import opened Params
  import opened Color
  import opened ColorMap
  import opened Exporter
  import opened ExportCalls
  import opened Block
  import opened Crop
  import opened Rle
  import opened Pack
  import opened RleTable

  // ------------------------------------------------------------------------------------
  // Blocks written row by row.

  /** The box the rows are written in: the whole block without transparency; with it, the
      box of the opaque pixels ((0, 0, 0, 0) for an empty block under a crop scheme) after
      the crop scheme's masks. */
  function DataBox(c: Ctx, nx: int, ny: int): Box
    requires c.p.sizeX >= 0 && c.p.sizeY >= 0
  {
    if !c.p.useTrans then Box(0, c.p.sizeX - 1, 0, c.p.sizeY - 1, 0)
    else
      var b := EmptyRule(c.p.comp, BlockBox(c, nx, ny));
      if c.p.comp.IsCrop() then MaskBox(c.p.comp, b) else b
  }

  /** The columns a row is written over: the masked range of its own opaque pixels under a
      line-crop scheme, the box's otherwise. */
  function LineRange(c: Ctx, nx: int, ny: int, j: int, box: Box): (int, int)
    requires c.p.sizeX >= 0
  {
    if c.p.comp.IsCropLine() then MaskLine(c.p.comp, c.p.bpc, LineAfter(c, nx, ny, j, c.p.sizeX))
    else (box.minX, box.maxX)
  }

  /** Row j of a block: nothing outside the box's rows; otherwise the line-crop header, if
      any, then one line holding the packed pixels of the row's range. */
  function RowCalls(c: Ctx, nx: int, ny: int, j: int, box: Box): seq<Call>
    requires c.p.sizeX >= 0 && PalOk(c)
  {
    if box.minY <= j <= box.maxY then
      var m := LineRange(c, nx, ny, j, box);
      (if c.p.comp.IsCropLine() then LineHeader(c.p.comp, m) else [])
      + [LineBegin] + Line(c, nx, ny, j, m.0, m.1).calls + [LineEnd]
    else []
  }

  /** Rows 0..j-1 of a block. */
  function RowsCalls(c: Ctx, nx: int, ny: int, box: Box, j: nat): seq<Call>
    requires c.p.sizeX >= 0 && PalOk(c)
  {
    if j == 0 then [] else RowsCalls(c, nx, ny, box, j - 1) + RowCalls(c, nx, ny, j - 1, box)
  }

  /** A block is skipped (no bytes, a `noEntry` index) or emits calls. */
  datatype BlockOut = Skipped | Emitted(calls: seq<Call>)

  function Out(o: BlockOut): seq<Call>
  {
    if o.Emitted? then o.calls else []
  }

  /** The calls of block (nx, ny), after its sprite header. */
  function BlockCalls(c: Ctx, nx: int, ny: int): BlockOut
    requires c.p.sizeX >= 0 && c.p.sizeY >= 0 && PalOk(c)
  {
    if c.p.comp.IsRLE() then
      Emitted(RunsCalls(c, Runs(c.p.comp, c.trans, ScanRows(c, nx, ny, c.p.sizeY))))
    else if c.p.useTrans && BlockBox(c, nx, ny).count == 0 && c.p.skipEmpty then
      Skipped
    else
      var box := DataBox(c, nx, ny);
      Emitted((if c.p.useTrans && c.p.comp.IsCrop() then BoxHeader(c.p.comp, box) else [])
              + RowsCalls(c, nx, ny, box, c.p.sizeY))
  }

  // ------------------------------------------------------------------------------------
  // The grid of blocks and the tables.

  /** What an encoding run needs of its context. */
  predicate Encodable(c: Ctx)
  {
    Geometry(c.p) && PalOk(c)
  }

  function NumBlocks(c: Ctx): int
  {
    c.p.numX * c.p.numY
  }

  /** Block number k of the grid, rows of blocks top to bottom, each left to right. */
  function BlockAt(c: Ctx, k: nat): BlockOut
    requires Encodable(c) && c.p.numX > 0
  {
    BlockCalls(c, k % c.p.numX, k / c.p.numX)
  }

  /** Every block's outcome, by column and row. */
  function BlockFn(c: Ctx): (int, int) -> BlockOut
    requires c.p.sizeX >= 0 && c.p.sizeY >= 0 && PalOk(c)
  {
    (nx, ny) => BlockCalls(c, nx, ny)
  }

  /** `f` gives every block's outcome; the equation is used only where the block's own
      calls are mentioned, so a grid over `f` can be reasoned about without them. */
  ghost predicate Outcomes(c: Ctx, f: (int, int) -> BlockOut)
    requires c.p.sizeX >= 0 && c.p.sizeY >= 0 && PalOk(c)
  {
    forall nx: int, ny: int {:trigger BlockCalls(c, nx, ny)} :: f(nx, ny) == BlockCalls(c, nx, ny)
  }

  /** Cells 0..n-1 of row ny of a grid, left to right. */
  function RowCells<T>(f: (int, int) -> T, ny: int, n: nat): (row: seq<T>)
    ensures |row| == n
  {
    if n == 0 then [] else RowCells(f, ny, n - 1) + [f(n - 1, ny)]
  }

  /** The cells of rows 0..ny-1 of a grid numX cells wide, rows top to bottom. */
  function GridCells<T>(f: (int, int) -> T, numX: nat, ny: nat): seq<T>
  {
    if ny == 0 then [] else GridCells(f, numX, ny - 1) + RowCells(f, ny - 1, numX)
  }

  /** The outcomes of the blocks of rows 0..ny-1. */
  function Blocks(c: Ctx, ny: nat): seq<BlockOut>
    requires Encodable(c)
  {
    GridCells(BlockFn(c), c.p.numX, ny)
  }

  /** The data table's calls for some block outcomes: each block after its sprite header. */
  function Grid(outs: seq<BlockOut>): seq<Call>
  {
    if outs == [] then []
    else Grid(outs[..|outs| - 1]) + ([SpriteHeader(|outs| - 1)] + Out(outs[|outs| - 1]))
  }

  /** The number of bytes the data table's calls for `outs` stand for: the blocks' own
      calls, the sprite headers counting for none. */
  function DataSize(outs: seq<BlockOut>): nat
  {
    if outs == [] then 0 else DataSize(outs[..|outs| - 1]) + Size(Out(outs[|outs| - 1]))
  }

  /** The index entry of one block starting at byte `offset`. */
  function EntryOf(o: BlockOut, offset: int, noEntry: u16): u16
  {
    if o.Skipped? then noEntry else Wrap16(offset)
  }

  /** The index entries of the blocks, in order. */
  function Entries(outs: seq<BlockOut>, s0: nat, noEntry: u16): (a: seq<u16>)
    ensures |a| == |outs|
  {
    if outs == [] then []
    else
      var init := outs[..|outs| - 1];
      Entries(init, s0, noEntry) + [EntryOf(outs[|outs| - 1], s0 + DataSize(init), noEntry)]
  }

  /** The optional header table: block size, grid size, bits per colour, scheme code and
      the skip flag. */
  function HeaderTable(c: Ctx): seq<Call>
  {
    var p := c.p;
    if p.addHeader then
      [TableBegin, TwoWordsLine(Wrap16(p.sizeX), Wrap16(p.sizeY)),
       TwoWordsLine(Wrap16(p.numX), Wrap16(p.numY)), ByteLine(Wrap8(p.bpc)),
       ByteLine(c.compCode), ByteLine(if p.skipEmpty then 1 else 0), TableEnd]
    else []
  }

  /** The optional font header at the start of the data table. */
  function FontHeader(c: Ctx): seq<Call>
  {
    var p := c.p;
    if p.addFont then
      [CommentLine, ByteLine(Wrap8(0x80 + p.sizeY % 16)),
       ByteLine(Wrap8((p.fontX % 16) * 16 + p.fontY % 16)),
       ByteLine(Wrap8(p.fontFirst)), ByteLine(Wrap8(p.fontLast))]
    else []
  }

  function IndexCalls(a: seq<u16>): (t: seq<Call>)
    ensures |t| == |a|
  {
    seq(|a|, k requires 0 <= k < |a| => WordLine(a[k]))
  }

  /** The optional index table: one word per block. */
  function IndexTable(c: Ctx, a: seq<u16>): seq<Call>
  {
    if c.p.addIndex then [TableBegin] + IndexCalls(a) + [TableEnd] else []
  }

  /** A custom palette entry in the MSX2 palette format: [0|R:3|0|B:3] then [0:5|G:3]. */
  function PaletteEntry(rgb: u32): Call
  {
    var col := FromU32(rgb);
    TwoBytesLine((col.R / 32) * 16 + col.B / 32, col.G / 32)
  }

  function PaletteCalls(pal: seq<u32>, n: nat): (t: seq<Call>)
    requires n == 0 || n < |pal|
    ensures |t| == n
  {
    seq(n, k requires 0 <= k < n => PaletteEntry(pal[k + 1]))
  }

  /** The custom palette table at 4 bits per colour: entries 1..palCount. */
  function PaletteTable(c: Ctx): seq<Call>
    requires PalOk(c)
  {
    if c.p.bpc == 4 && c.p.palType == PaletteCustom then
      [TableBegin] + PaletteCalls(c.pal, if c.p.palCount < 0 then 0 else c.p.palCount) + [TableEnd]
    else []
  }

  /** Everything before the first block. */
  function Preamble(c: Ctx): seq<Call>
  {
    [Header] + HeaderTable(c) + [TableBegin] + FontHeader(c)
  }

  /** The number of bytes the preamble stands for: 11 of header table, 4 of font header. */
  function PreambleLength(c: Ctx): nat
  {
    (if c.p.addHeader then 11 else 0) + (if c.p.addFont then 4 else 0)
  }

  /** What follows the last block: the end of the data table, then the index and palette
      tables. */
  function Tables(c: Ctx, entries: seq<u16>): seq<Call>
    requires PalOk(c)
  {
    [TableEnd] + IndexTable(c, entries) + PaletteTable(c)
  }

  /** All the calls of an encoding run on an exporter that has already counted `base`
      bytes. */
  function ParseCalls(c: Ctx, base: nat): seq<Call>
    requires Encodable(c)
  {
    ImageCalls(c, BlockFn(c), base)
  }

  /** The calls of a run whose block (nx, ny) has the outcome f(nx, ny). */
  function ImageCalls(c: Ctx, f: (int, int) -> BlockOut, base: nat): seq<Call>
    requires Encodable(c)
  {
    ImageOf(c, GridCells(f, c.p.numX, c.p.numY), base)
  }

  /** The calls of a run over the block outcomes `outs` whose output starts at byte `base`:
      the preamble, the grid and the tables with the grid's entries. */
  function ImageOf(c: Ctx, outs: seq<BlockOut>, base: nat): seq<Call>
    requires PalOk(c)
  {
    Preamble(c) + Grid(outs) + Tables(c, Entries(outs, base + PreambleLength(c), c.noEntry))
  }

  /** The custom palette: entry 0 black, then the quantiser's first n colours. */
  function CustomPalette(quant: seq<u32>, n: int): (pal: seq<u32>)
    requires 0 <= n <= |quant|
    ensures |pal| == n + 1 && pal[0] == 0
    ensures forall k :: 1 <= k <= n ==> pal[k] == quant[k - 1]
  {
    [0] + quant[..n]
  }

  /** The palette 4-bit indices are chosen from: the MSX1 palette, or else the custom
      array, which is filled from the quantiser only at 4 bits per colour with a custom
      palette; otherwise its content is whatever `quant` says. */
  function ParsePalette(p: ExportParameters, quant: seq<u32>): seq<u32>
    requires p.bpc == 4 && p.palType == PaletteCustom ==> 0 <= p.palCount <= |quant|
  {
    if p.palType == MSX1 then PaletteMSX()
    else if p.bpc == 4 && p.palType == PaletteCustom then CustomPalette(quant, p.palCount)
    else quant
  }

  /** The context of an encoding run: the parameters normalised to the image, the 24-bit
      transparent colour and the palette. */
  function ParseContext(p: ExportParameters, img: Image, quant: seq<u32>, garbage: u8, noEntry: u16, compCode: u8): Ctx
    requires img.width >= 0 && img.height >= 0
    requires p.bpc == 4 && p.palType == PaletteCustom ==> 0 <= p.palCount <= |quant|
  {
    Ctx(WholeImage(p, img.width, img.height), img, p.transColor % 0x100_0000,
        ParsePalette(p, quant), garbage, noEntry, compCode)
  }

  // ------------------------------------------------------------------------------------
  // Reference layouts a reader of the output relies on.

  /** The bytes a row of values packs into at a depth. */
  function Packed(bpc: int, s: seq<u8>): seq<int>
  {
    if bpc == 8 then s else if bpc == 4 then Nibbles(s) else if bpc == 1 then Bits(s) else []
  }

  /** The bytes of rows 0..j-1 of an uncompressed block, each row packed on its own. */
  function PlainRows(c: Ctx, nx: int, ny: int, j: nat): seq<int>
    requires PalOk(c)
  {
    if j == 0 then [] else PlainRows(c, nx, ny, j - 1) + Packed(c.p.bpc, RowValues(c, nx, ny, j - 1))
  }

  /** The header table as a reader gets it back. */
  datatype TableHeader = TableHeader(sizeX: int, sizeY: int, numX: int, numY: int, bpc: int, comp: int, skip: int)

  function Word(lo: int, hi: int): int { lo + 0x100 * hi }

  function ReadHeader(bs: seq<int>): TableHeader
    requires |bs| == 11
  {
    TableHeader(Word(bs[0], bs[1]), Word(bs[2], bs[3]), Word(bs[4], bs[5]), Word(bs[6], bs[7]), bs[8], bs[9], bs[10])
  }

  /** Little-endian words back from their bytes. */
  function ReadWords(bs: seq<int>): (ws: seq<int>)
    ensures |ws| == |bs| / 2
  {
    seq(|bs| / 2, k requires 0 <= k < |bs| / 2 => Word(bs[2 * k], bs[2 * k + 1]))
  }
}
