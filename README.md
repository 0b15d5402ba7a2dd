# MSX image encoder — a Dafny model

CMSXimg turns a picture into data tables for MSX programs. The picture is cut into a
grid of blocks (`posX/posY`, `sizeX/sizeY`, `gapX/gapY`, `numX/numY`). Each block is
written at 8 bits per colour (one GRB8 byte per pixel), 4 bits (two palette indices per
byte) or 1 bit (eight pixels per byte). A block is stored in one of ten compression
schemes:

- `None`;
- the crop schemes `Crop16/32/256`, which keep only the box of the opaque pixels;
- their per-line variants `CropLine16/32/256`;
- the run-length schemes `RLE0`, `RLE4` and `RLE8`.

The encoder (`ParseImage`) drives one exporter interface. Four exporters implement it:
C text, assembler text, raw binary, and a count-only dummy. Optional tables come around
the data table: a header table, a font header, an index of the blocks' start offsets,
and a custom palette.

Two command-line front ends settle the scheme before encoding: the newer `CMSXimg` and
the older `MSXImage`. Each can pick a scheme automatically from the block size, or try
every scheme with the dummy exporter and keep the smallest. Each then validates the
parameters, applies its downgrade warnings and palette clamps, and chooses an exporter
from the output format or the output file's extension.

The model has these parts:

- `types.dfy`: the fixed-width integer types and explicit wrap-around.
- `color.dfy`: the RGB24 and GRB8 colour conversions.
- `colormap.dfy`: the nearest-palette search and the GRB8 colour of a pixel.
- `compressor_name.dfy`: the scheme names.
- `params.dfy`: the parameter record and the whole-image rule.
- `block.dfy`: pixel addressing, the box scan and the line scan.
- `crop.dfy`: the crop headers and their masks.
- `rle.dfy`: building the run table.
- `runtable.dfy`: the run table's bytes and a reader for them.
- `pack.dfy`: line packing at 8, 4 and 1 bits per colour.
- `encoding.dfy`: the whole call sequence of an encoding run, as functions.
- `encoding_facts.dfy`, `grid_facts.dfy` and `parser_facts.dfy`: properties of that call sequence.
- `parser.dfy`: the encoder itself, as imperative methods proved against those functions.
- `exporter.dfy`: the exporter class, which keeps a running 32-bit byte count and, for the
  binary kind, the output bytes. A ghost trace of the calls received specifies its state.
- `selection.dfy`: the automatic choice, the best-scheme search, the downgrades and the
  palette count rules.
- `file_names.dfy`: `HaveExt`, `RemoveExt` and the exporter choice.
- `front_end.dfy`: the two command-line runs.

The encoder writes an opaque RLE0 run at 4 bits per colour as the code does: the run's
first colour for every pixel, packed into a byte that starts from the uninitialised
value. For two other rows under "## Findings" it uses the corrected half: the
nearest-colour search over 1..count, and the best search that keeps the first of equal
sizes. "## Left out" names every member this affects. Other behaviour worth knowing:

- Under the line-crop schemes at 4 bits per colour, only `minX` is rounded down to an even
  column. `maxX` is not rounded up, and the last pixel of an odd-length line gets a byte
  of its own.
- Nothing is written for the pixels of a 2-bit block: only its line begin and end calls.
  There is no tile (GM2) mode in this version.
- Transparency together with opacity is a fatal error (exit code 1), not a warning.
- As written, the best search keeps the first of equal sizes only while sizes are
  non-zero. The model's front ends use the corrected search; see "## Findings".

## Model

| member | source | states |
|---|---|---|
| Color.ToU32 | src/color.h:65-70 | packing a colour gives a value below 2^24, the inverse of the `RGB24(u32)` constructor |
| Color.UnpackPack | src/color.h:65-70 | unpacking a packed colour gives back its R, G and B |
| Color.PackUnpack | src/color.h:65-70 | packing the unpacked channels of a 32-bit value gives back its low 24 bits |
| Color.HighByteIgnored | src/color.h:65-70 | the alpha byte of a 32-bit value has no effect on the unpacked colour |
| Color.ToGRB8 | src/color.cpp:16-25 | the GRB8 byte holds G*7/255 in bits 5-7, R*7/255 in bits 2-4 and B*3/255 in bits 0-1, each field within its width |
| Color.ToGRB8Monotone | src/color.cpp:16-25 | raising any channel never lowers its field |
| Color.ToGRB8Extremes | src/color.cpp:16-25 | black maps to 0 and white to 0xFF |
| Color.FromGRB8 | src/color.cpp:28-38 | 0 decodes to black and 0xFF to white |
| Color.FromGRB8SwapsRedGreen | src/color.cpp:28-38 | as written, encoding then decoding puts the green level in R and the red level in G |
| Color.FromGRB8GreenBecomesRed | src/color.cpp:28-38 | pure green encodes to 0xE0, and 0xE0 decodes to pure red |
| Color.FromGRB8FixedKeepsChannels | src/color.cpp:28-38 | the corrected decode returns each channel's quantised level in its own channel |
| Color.FixedRoundTripExtremes | src/color.cpp:16-38 | after the corrected decode and a re-encode, the green field is 7 exactly when it was 7, and 0 exactly when it was at most 1 |
| Color.PaletteMSX | src/color.cpp:13 | the MSX1 palette has 16 entries; entries 0 and 1 are black and entry 15 is white |
| ColorMap.Distance | src/parser.cpp:51 | the weight of two colours is the sum of the channel differences, at most 3*255 |
| ColorMap.BestUpToIsNearest | src/parser.cpp:40-60 | the search over entries 1..n returns an entry of least weight, the first such one, and that entry's weight |
| ColorMap.GetNearestColorIndex | src/parser.cpp:40-60 | the loop as written reads entries 1..count+1 and returns the first nearest of them (0 when count is negative) |
| ColorMap.DefaultCountReadsPastPalette | src/parser.cpp:47-49 | with the default palCount 15 the loop reads entry 16 of the 16-entry MSX1 palette, one past its end |
| ColorMap.NearestColor | src/parser.cpp:40-60 | the corrected index lies in 1..count, or is 0 when count is not positive |
| ColorMap.NearestColorIsNearest | src/parser.cpp:40-60 | the corrected index is a nearest entry among 1..count, and the first of the nearest |
| ColorMap.NearestColorIndex | src/parser.cpp:40-60 | the corrected loop computes NearestColor |
| ColorMap.GetGBR8 | src/parser.cpp:63-82 | 0 exactly for the transparent colour; otherwise the GRB8 byte, or 0x20 or 0x04 (by whether green exceeds red) where that byte would be 0 |
| CompressorName.Name | src/exporter.cpp:13-28 | every scheme has a non-empty name |
| CompressorName.NameRoundTrip | src/exporter.cpp:13-28 | the scheme is recovered from its name |
| CompressorName.NamesDistinct | src/exporter.cpp:17-26 | two schemes have the same name exactly when they are the same scheme |
| CompressorName.NoneOnlyForNone | src/exporter.cpp:17 | the name is "None" exactly for no compression |
| Params.SchemeClasses | src/parser.cpp:221-375 | every line-crop scheme is a crop scheme; no scheme is both crop and run-length; None is the one scheme that is neither |
| Params.DefaultParameters | src/exporter.h:74-104 | the defaults: a 1x1 grid at the origin, whole image, 8 bits per colour, 15 palette entries, no compression, table name "table", MSX1 palette, hexadecimal, no optional tables |
| Params.WholeImage | src/parser.cpp:142-149 | when a size is 0 the block becomes the whole image at the origin with a 1x1 grid; otherwise nothing changes; the other fields are kept either way |
| Params.WholeImageIdempotent | src/parser.cpp:142-149 | applying the whole-image rule twice is the same as once |
| Block.AddrNonNegative | src/parser.cpp:237 | the buffer index of a pixel of a block is never negative for a non-negative geometry |
| Block.Rgb | src/parser.cpp:237-238 | a pixel read from the buffer is masked to 24 bits |
| Block.C4 | src/parser.cpp:527-531 | a 4-bit colour index is below 16 |
| Block.Row | src/parser.cpp:513-518 | a block row has sizeX pixels |
| Block.BlockBoxTight | src/parser.cpp:371-416 | under a crop scheme the scanned box contains every opaque pixel of the block and touches one on each side; the count is 0 exactly for a fully transparent block, whose box is the initial one |
| Block.BlockBoxWhole | src/parser.cpp:366-404 | without a crop scheme the box is the whole block, and the count is still 0 exactly for a fully transparent block |
| Block.LineBoundsTight | src/parser.cpp:469-484 | the line scan's bounds contain every opaque pixel of the line and are opaque themselves; a transparent line gives (sizeX, 0) |
| Crop.BoxHeaderRoundTrip | src/parser.cpp:418-460 | reading back a crop header gives the masked box bounds it was written from |
| Crop.MaskKeepsSmallBoxes | src/parser.cpp:421-459 | the masks leave unchanged every box that fits the scheme's field widths |
| Crop.Crop32StoredBoxContains | src/parser.cpp:435-444 | under Crop32 the stored box still contains the scanned box of a 32x32 block, because the minima are capped at 7 and never raised |
| Crop.LineHeaderRoundTrip | src/parser.cpp:485-507 | the line header reads back as the masked line bounds; at 4 bits per colour the start is even, except under CropLine32; the masked start never exceeds the scanned one |
| Rle.MaxRunLength | src/parser.cpp:223-229 | the run-length caps: 0x7F for RLE0, 0x0F for RLE4, 0xFF for RLE8 |
| Rle.RunsGood | src/parser.cpp:231-275 | every run of the built table has a length from 1 to the cap; an RLE0 run holds pixels of one class and an RLE4/8 run one colour; neighbouring runs could not have been merged; the table is empty exactly for an empty block |
| Rle.RunsExpand | src/parser.cpp:231-275 | expanding the runs gives back the scanned pixels in order |
| Rle.RunsTotalLength | src/parser.cpp:231-275 | the run lengths add up to the number of pixels |
| RleTable.RunValues | src/parser.cpp:290-319 | the corrected half: each pixel of an opaque run gets its own value at the depth (the encoder packs the run's first colour instead, see RunData) |
| RleTable.OpaqueRun4AsWritten | src/parser.cpp:290-311 | as written, the n pixels of an opaque RLE0 run at 4 bits per colour go out as (n+1)/2 data bytes |
| RleTable.RunData | src/parser.cpp:277-357 | the bytes the encoder writes for one run: only data bytes, one for a transparent RLE0 run or an RLE4 run, two for RLE8, and for an opaque RLE0 run the length byte then one byte per pixel (8 bits) or per two pixels (4 bits); nothing for other schemes |
| RleTable.GbrCalls | src/parser.cpp:312-319 | at 8 bits per colour an opaque RLE0 run writes one GRB8 byte per pixel |
| RleTableFacts.OpaqueBytes4 | src/parser.cpp:288-311 | the corrected half: with each pixel's own index from a clear byte, an opaque RLE0 run at 4 bits per colour is its length byte followed by its pixels' indices packed two per byte |
| RleTableFacts.OpaqueBytes8 | src/parser.cpp:288-319 | an opaque RLE0 run at 8 bits per colour is its length byte followed by its pixels' GRB8 bytes |
| RleTableFacts.UnpackNibbles | src/parser.cpp:301-309 | unpacking the packed nibbles gives back the indices |
| RleTableFacts.DecodeTableBytes | src/parser.cpp:277-357 | the corrected half: reading the corrected bytes of any well-formed run table gives the colour code of every pixel the runs stand for |
| RleTableFacts.RunTableRoundTrip | src/parser.cpp:231-357 | the corrected half: with the corrected RLE0 4-bit packing, the run table of any pixel sequence reads back as the colour code of every pixel |
| RleTableFacts.AsWrittenIsColourRun | src/parser.cpp:290-311 | from a clear leftover byte, the packing as written equals the corrected packing of a run whose pixels all have the run's colour |
| RleTableFacts.RunDataAsRead | src/parser.cpp:277-357 | with a clear leftover byte, or outside RLE0 at 4 bits, the bytes written for a run are the corrected bytes of the run a reader finds in them |
| RleTableFacts.RunsCallsBytes | src/parser.cpp:277-357 | the table's line calls carry no bytes, and its bytes are the corrected bytes of the runs a reader finds |
| RleTableFacts.WrittenOpaqueBytes4 | src/parser.cpp:288-311 | as written, from a clear leftover byte, an opaque RLE0 run at 4 bits per colour is its length byte then the run colour's index in both nibbles of every byte |
| RleTableFacts.WrittenTableReadsBack | src/parser.cpp:231-357 | the table as the encoder writes it, from a clear leftover byte, reads back as every pixel's code, except that each pixel of an opaque RLE0 4-bit run comes back as the code of its run's first colour |
| RleTableFacts.WrittenTableRoundTrip | src/parser.cpp:231-357 | outside RLE0 at 4 bits per colour, the table as written is lossless: RLE4, RLE8 and RLE0 at 8 bits read back as the code of every pixel |
| RleTableFacts.FirstColourRepeated | src/parser.cpp:290-311 | as written, a two-pixel opaque run with two different indices x and y is written as one byte with x twice instead of x then y |
| RleTableFacts.UninitialisedByte | src/parser.cpp:290-311 | as written, the first byte of an opaque run keeps whatever the uninitialised variable held: an index-0 pixel over a leftover 1 is written as 1 instead of 0 |
| Pack.BitMask | src/parser.cpp:549 | the bit set for a pixel is 2^(7 - bit) |
| Pack.PixelValue | src/parser.cpp:519-555 | a pixel's value: its GRB8 byte at 8 bits, its palette index (below 16) at 4 bits, and at 1 bit 1 exactly when it is lit (not transparent, or not black) |
| Pack.RowValues | src/parser.cpp:513-561 | the values of a block row are its pixels' values, one per column |
| Pack.Nibbles | src/parser.cpp:533-541 | n indices pack into (n+1)/2 bytes |
| Pack.Bits | src/parser.cpp:545-560 | n bits pack into (n+7)/8 bytes |
| Pack.LineCalls8 | src/parser.cpp:519-524 | at 8 bits per colour a line writes one byte per pixel of [minX, maxX] |
| Pack.LineCalls4 | src/parser.cpp:525-542 | at 4 bits per colour, from an even start, a line writes the indices of [minX, maxX] packed high nibble first |
| Pack.LineCalls1 | src/parser.cpp:543-561 | at 1 bit per colour, from a byte-aligned start, a line writes the pixels of [minX, maxX] packed MSB first, eight to a byte, flushing the last partial byte |
| Encoding.CustomPalette | src/parser.cpp:114-131 | the custom palette has a black entry 0 followed by the palCount quantiser colours |
| Encoding.Entries | src/parser.cpp:207-214 | the index has one entry per block |
| Encoding.IndexCalls | src/parser.cpp:578-587 | the index table writes one word per block |
| Encoding.PaletteCalls | src/parser.cpp:592-605 | the palette table writes one line per palette entry 1..palCount |
| EncodingFacts.HeaderTableRoundTrip | src/parser.cpp:157-169 | the header table is empty unless asked for; otherwise it is 11 bytes that read back as the 16-bit sizes and counts, the depth, the scheme code and the skip flag |
| EncodingFacts.FontHeaderFields | src/parser.cpp:195-204 | the font header is empty unless asked for; otherwise it is 4 bytes: [8, sizeY:4], [fontX:4, fontY:4], first and last character |
| EncodingFacts.PreambleSize | src/parser.cpp:152-204 | the byte count of everything before the first block is the preamble length the index offsets start from |
| EncodingFacts.IndexRoundTrip | src/parser.cpp:578-587 | the index bytes are two per block and read back, low byte first, as the index entries |
| EncodingFacts.PaletteEntryFields | src/parser.cpp:596-603 | a palette entry is two bytes [R/32:4, B/32:4] and [G/32], each channel within 0..7 |
| EncodingFacts.LinePacked | src/parser.cpp:510-564 | the bytes of a line are its values in [minX, maxX] packed at the depth |
| EncodingFacts.PlainBox | src/parser.cpp:366-369 | without a crop scheme the rows are written over the whole block |
| EncodingFacts.PlainBlockBytes | src/parser.cpp:364-567 | an uncompressed block is skipped exactly when it is fully transparent with transparency and skip-empty on; otherwise its bytes are its rows packed one after another |
| EncodingFacts.PlainRowsSize | src/parser.cpp:463-566 | an uncompressed block of j rows takes j times the packed row size |
| EncodingFacts.PackedSize | src/parser.cpp:510-564 | a packed row takes n, (n+1)/2 or (n+7)/8 bytes at 8, 4 or 1 bits per colour, and 0 at any other depth |
| GridFacts.OutputLocatesBlock | src/parser.cpp:207-214 | for every written block, the output is some x, then the block's bytes, then some y, with the block's index entry equal to the length of x (16-bit wrapped) |
| GridFacts.SkippedBytes | src/parser.cpp:406-413 | a skipped block adds no bytes to the data table |
| GridFacts.GridIndex | src/parser.cpp:211 | nx + ny*numX lies in 0..numX*numY-1 and gives back nx and ny |
| GridFacts.EntryAt | src/parser.cpp:211 | a block's index entry is computed from the byte count of the blocks before it |
| GridFacts.DataSizeIsSize | src/parser.cpp:207-214 | the running count the entries are taken from is the byte count of the blocks' calls |
| GridFacts.GridLength | src/parser.cpp:192 | the grid has numX*numY blocks |
| ParserFacts.RunParts | src/parser.cpp:152-605 | the preamble, the grid and the closing tables, written one after another, make up the whole image output |
| ParserFacts.ImageOfParts | src/parser.cpp:152-605 | the image output is preamble + grid + tables, with the index taken at the preamble's end |
| ParserFacts.TablesParts | src/parser.cpp:570-605 | the closing tables are the table end, the index table, then the palette table |
| ExportCalls.WordBytes | src/exporter.h:551-556 | a word is written as two bytes, low byte first |
| ExportCalls.IncrementBytes | src/exporter.h:532-575 | every exporter adds to its total the number of bytes the binary exporter appends for the call, at most 4 |
| ExportCalls.BytesLength | src/exporter.h:532-575 | the byte count of a call sequence is the length of its bytes |
| ExportCalls.SizeAppend | src/exporter.h:532-575 | the byte count of two call sequences one after another is the sum of their counts |
| ExportCalls.BytesAppend | src/exporter.h:532-575 | the bytes of two call sequences one after another are their bytes concatenated |
| ExportCalls.Wrap32Add | src/exporter.h:124 | adding to the wrapped 32-bit total wraps the same as adding to the exact total |
| Exporter.GetNumberFormat | src/exporter.h:202-394 | the C exporter prints decimal as "%3u" and all else as 0x hex; the assembler exporter uses 0x, 0..h, $ or # hex by format and "%3u" for decimal and binary; the binary kinds have no format |
| Exporter.Exporter.constructor | src/exporter.h:127 | a new exporter has a zero total, no output and no calls |
| Exporter.Exporter.GetTotalBytes | src/exporter.h:145 | the total is the 32-bit wrapped byte count of the calls received |
| Exporter.Exporter.WriteHeader | src/exporter.h:528 | records the call; the total and the bytes are unchanged |
| Exporter.Exporter.WriteTableBegin | src/exporter.h:529 | records the call; the total and the bytes are unchanged |
| Exporter.Exporter.WriteSpriteHeader | src/exporter.h:530 | records the call; the total and the bytes are unchanged |
| Exporter.Exporter.WriteCommentLine | src/exporter.h:531 | records the call; the total and the bytes are unchanged |
| Exporter.Exporter.Write1ByteLine | src/exporter.h:532-536 | adds 1 to the total, and the binary exporter appends the byte |
| Exporter.Exporter.Write2BytesLine | src/exporter.h:537-542 | adds 2, and the binary exporter appends both bytes |
| Exporter.Exporter.Write4BytesLine | src/exporter.h:543-550 | adds 4, and the binary exporter appends the four bytes |
| Exporter.Exporter.Write1WordLine | src/exporter.h:551-556 | adds 2, and the binary exporter appends the word low byte first |
| Exporter.Exporter.Write2WordsLine | src/exporter.h:557-564 | adds 4, and the binary exporter appends both words low byte first |
| Exporter.Exporter.WriteLineBegin | src/exporter.h:565 | records the call; the total and the bytes are unchanged |
| Exporter.Exporter.Write1ByteData | src/exporter.h:566-570 | adds 1, and the binary exporter appends the byte |
| Exporter.Exporter.Write8BitsData | src/exporter.h:571-575 | adds 1, and the binary exporter appends the byte |
| Exporter.Exporter.WriteLineEnd | src/exporter.h:576 | records the call; the total and the bytes are unchanged |
| Exporter.Exporter.WriteTableEnd | src/exporter.h:577 | records the call; the total and the bytes are unchanged |
| Exporter.Exporter.Export | src/exporter.h:581-593 | export succeeds exactly for the dummy exporter or when the file could be written |
| Exporter.Exporter.BinLengthMatchesTotal | src/exporter.h:520-577 | the binary exporter's output is the bytes of its calls, and its total is their length wrapped to 32 bits |
| Exporter.Exporter.SameTotalForSameCalls | src/exporter.h:600-620 | any two exporters given the same calls hold the same total, so the dummy's count in the search is the size a real exporter reports |
| Parser.Index4 | src/parser.cpp:527-531 | the 4-bit index of a pixel: 0 for the transparent colour when transparency is on, else its nearest palette entry |
| Parser.ScanLine | src/parser.cpp:469-484 | the line scan computes the tight line bounds |
| Parser.WriteLineRange | src/parser.cpp:485-507 | masks the line bounds and writes the line header |
| Parser.EmitPixel | src/parser.cpp:517-560 | one column of a line: the exporter and the pending byte move from the state after column i to the state after column i+1 of the line's packing |
| Parser.EmitLine | src/parser.cpp:510-564 | writes a line's pixels in [minX, maxX] as the packing of its values |
| Parser.EmitRow | src/parser.cpp:464-565 | writes a row inside the box: line header and pixels under line-crop, pixels only otherwise, nothing outside [minY, maxY] |
| Parser.EmitRows | src/parser.cpp:463-566 | writes every row of the block |
| Parser.ScanBox | src/parser.cpp:366-404 | the box scan computes the block's box and opaque count |
| Parser.WriteBoxHeader | src/parser.cpp:418-460 | masks the box and writes the scheme's crop header |
| Parser.PlainBox | src/parser.cpp:364-461 | skips exactly an empty block with transparency and skip-empty on; otherwise gives the data box and writes its crop header when a crop scheme is on with transparency |
| Parser.EmitPlainBlock | src/parser.cpp:364-567 | a block without run-length writes the crop header and then its rows, or nothing when skipped |
| Parser.AddPixel | src/parser.cpp:240-273 | adding a pixel grows the last run or starts a new one |
| Parser.AddLine | src/parser.cpp:235-274 | adding a row extends the run table by that row's pixels |
| Parser.BuildRuns | src/parser.cpp:231-275 | the run table of the block's pixels in row-major order |
| Parser.EmitOpaqueRun4 | src/parser.cpp:290-311 | the corrected half: writes an opaque RLE0 run's own indices packed two per byte |
| Parser.EmitOpaqueRun8 | src/parser.cpp:312-319 | writes an opaque RLE0 run's GRB8 bytes |
| Parser.EmitRunPixel | src/parser.cpp:296-309 | the corrected half: one pixel of an opaque RLE0 4-bit run moves the exporter and byte from the packing state after l pixels to the state after l+1 |
| Parser.EmitOpaqueRun4AsWritten | src/parser.cpp:290-311 | the loop as written: writes OpaqueRun4AsWritten's bytes, the run colour's index for every pixel, starting from the leftover byte |
| Parser.EmitRunData | src/parser.cpp:279-356 | writes one run as the code does: RunData's bytes for its scheme and depth |
| Parser.EmitRuns | src/parser.cpp:277-357 | writes the run table, one line per run |
| Parser.EmitBlock | src/parser.cpp:221-567 | writes a block as its scheme calls for; it is skipped exactly when the block's outcome is skipped |
| Parser.WriteHeaderTable | src/parser.cpp:157-169 | writes the header table |
| Parser.WriteFontHeader | src/parser.cpp:195-204 | writes the font header |
| Parser.WritePreamble | src/parser.cpp:152-204 | writes the file header, the header table, the data table's start and the font header |
| Parser.WriteGridBlock | src/parser.cpp:211-214 | stores the block's index entry (its start offset, or no-entry when skipped) and writes its sprite header and data; earlier entries are unchanged |
| Parser.EmitGridBlock | src/parser.cpp:209-214 | one block of the grid: the exporter's calls and the index gain that block's calls and entry |
| Parser.EmitGridRow | src/parser.cpp:207-214 | one row of the grid: after row ny, all blocks of rows 0..ny are written and indexed |
| Parser.EmitGrid | src/parser.cpp:207-569 | writes every block in row-major order and fills the index with their entries |
| Parser.EncodeGrid | src/parser.cpp:192-569 | allocates the numX*numY index and writes the grid |
| Parser.WriteTables | src/parser.cpp:570-605 | writes the data table's end, the index table and the palette table |
| Parser.WriteIndex | src/parser.cpp:578-587 | writes the index table when asked for |
| Parser.WritePalette | src/parser.cpp:592-605 | writes the custom palette table at 4 bits per colour |
| Parser.FillCustomPalette | src/parser.cpp:126-129 | builds the custom palette from the quantiser's colours |
| Parser.EncodeImage | src/parser.cpp:142-605 | the whole output of an encoding run |
| Parser.EncodeRun | src/parser.cpp:142-605 | with the blocks' outcomes given, the output is the image's whole call sequence from the current byte count |
| Parser.ParseImage | src/parser.cpp:85-611 | ParseImage writes the modelled call sequence, including the RLE0 4-bit packing as written and the leftover byte, with the corrected nearest-colour search; it succeeds exactly when the export does |
| FileNames.FindFrom | src/CMSXimg.cpp:31 | a found position is an occurrence at or after the start |
| FileNames.FindFromFirst | src/CMSXimg.cpp:31 | the search finds nothing exactly when there is no occurrence, and otherwise the first one |
| FileNames.HaveExtOccurs | src/CMSXimg.cpp:29-32 | HaveExt holds exactly when the pattern occurs anywhere in the name, not only at its end |
| FileNames.SuffixHasExt | src/CMSXimg.cpp:29-32 | a name ending in the extension has it |
| FileNames.LastDot | src/CMSXimg.cpp:37 | the position found holds a dot |
| FileNames.LastDotLast | src/CMSXimg.cpp:37 | no position exactly when there is no dot; otherwise no dot after it |
| FileNames.RemoveExt | src/CMSXimg.cpp:35-41 | the result is a prefix of the name |
| FileNames.RemoveExtCut | src/CMSXimg.cpp:35-41 | a name without a dot is kept; otherwise the name is cut at its last dot |
| FileNames.RemoveAddedExt | src/CMSXimg.cpp:35-41 | removing an added extension gives the name back |
| FileNames.DotExtOccurs | src/CMSXimg.cpp:29-32 | for a dot-free base and extension, name.ext has the pattern ".e" exactly when e is a prefix of ext |
| FileNames.TargetOf | src/CMSXimg.cpp:699-735 | a named output format selects its exporter whatever the file name |
| FileNames.AutoTargetByExt | src/CMSXimg.cpp:701-722 | with the automatic format, .h and .inc select C, .s and .asm the assembler, .bin and .raw binary, .png the image library, and .hdr C (as ".h" occurs in it) |
| FileNames.ExtFor | src/CMSXimg.cpp:611-621 | the derived extension is a single dotted extension |
| FileNames.DerivedNameAgrees | src/CMSXimg.cpp:609-627 | a derived output name keeps the input's base name and is sent to the exporter its format names |
| Selection.AutoScheme | src/CMSXimg.cpp:509-542 | automatic choice: None for the whole image; without transparency RLE4 at 4 bits and None otherwise; with transparency the box or line crop of the smallest class (16, 32, 256) the block fits, or None |
| Selection.AutoSchemeSmallest | src/CMSXimg.cpp:516-533 | no smaller crop class of the same kind fits the block |
| Selection.CompTableComplete | src/CMSXimg.cpp:549-561 | the search table lists every scheme once |
| Selection.BestSchemeAsWritten | src/CMSXimg.cpp:563-596 | the search as written returns a usable trial that no later usable trial beats; earlier trials lose to it only when no usable size is 0 |
| Selection.ZeroSizeIsUnset | src/CMSXimg.cpp:577 | a usable trial of size 0 (here CropLine16 at 7 bytes after Crop16 at 0) is replaced by the next usable trial, which is larger |
| Selection.IsBestUnique | src/CMSXimg.cpp:566-593 | the best trial is unique |
| Selection.BestScheme | src/CMSXimg.cpp:563-596 | corrected search: the first usable trial of least size, or None with size 0 when no trial is usable |
| Selection.Downgraded | src/CMSXimg.cpp:655-674 | the downgraded scheme suits the parameters, keeps a scheme that already suits them, and is the scheme itself, None, or RLE8 in place of RLE4 at 8 bits |
| Selection.Downgrade | src/CMSXimg.cpp:655-674 | the four warnings compute the downgraded scheme |
| Selection.DefaultedCount | src/CMSXimg.cpp:499-505 | a negative count at 2 or 4 bits fills the entries above the offset; any other count is kept |
| Selection.DefaultPalCount | src/CMSXimg.cpp:499-505 | the default step computes the defaulted count |
| Selection.ClampedCount | src/CMSXimg.cpp:679-688 | at 2 and 4 bits offset + count stays within 4 or 16 entries, cut to the limit exactly when over it; other depths keep the count |
| Selection.ClampPalCount | src/CMSXimg.cpp:679-688 | the clamp step computes the clamped count |
| Selection.ClampCanEmptyPalette | src/CMSXimg.cpp:643-688 | at 2 bits with offset 4 an accepted count is clamped to 0 |
| Selection.ClampedCountOld | src/MSXImage.cpp:414-418 | the older tool cuts the count to at most 15 and keeps counts up to 15 |
| Selection.ClampPalCountOld | src/MSXImage.cpp:414-418 | the older clamp step computes that count |
| FrontEnd.OutName | src/CMSXimg.cpp:609-627 | the given output name, or the input's base name with the format's extension |
| FrontEnd.Chosen | src/CMSXimg.cpp:509-597 | the best search's scheme when it is on, else the automatic choice, else the given scheme |
| FrontEnd.ExitCode | src/CMSXimg.cpp:744 | start address + output size on success, 0 on failure |
| FrontEnd.Run | src/CMSXimg.cpp:498-744 | exit 1 on every refused input; otherwise the exit code, the downgraded scheme, the defaulted then clamped palette count, the output name and the exporter its format and extension select |
| FrontEnd.AcceptedSettles | src/CMSXimg.cpp:643-688 | every accepted run ends with a scheme that suits its parameters and a palette within the depth's entries |
| FrontEnd.AcceptedEmptyPalette | src/CMSXimg.cpp:643-683 | the check on the count comes before the clamp, so a 2-bit run with offset 4 is accepted and then ends with 0 palette entries |
| FrontEnd.AutoWithoutTransparency | src/CMSXimg.cpp:509-674 | without transparency the automatic choice ends as RLE4 at 4 bits for a sized block and None otherwise |
| FrontEndOld.Chosen | src/MSXImage.cpp:279-367 | the older tool's scheme before the downgrades, with box crops at 1 bit only |
| FrontEndOld.Run | src/MSXImage.cpp:279-468 | exit 1 on a missing name or a depth other than 1, 4 or 8; otherwise 0 or 1 by success, the downgraded scheme, the count cut to 15 and the exporter its format and extension select |

## Left out

- Loading and decoding the image, colour quantisation and dithering belong to the image
  library. The model takes the 32-bit pixel buffer and the quantiser's palette as inputs.
- Reads outside the pixel buffer give 0 in the model. The source reads past its buffer
  there.
- The 8-bit value of the variable that the RLE0 4-bit packing leaves uninitialised is an
  input (`garbage`). It is one value for every run of the image; the source declares
  the variable afresh for each run.
- The text that the C and assembler exporters render (number formatting aside) is not
  modelled. Neither are `printf` messages, comments, table names or the writing of the
  file. Whether the file could be written is an input to `Export`.
- `MSXi_NO_ENTRY` and the numeric code of each scheme are defined outside these files.
  They are parameters of the encoder.
- `IsCompressorCompatible` and the results of the trial runs in the best search are not
  part of this model. Each trial is an input (compatible, succeeded, size). The model
  does not carry the search's in-place rewriting of `param.comp` into those runs.
- `FileExists` is an input (`copyExists`). The image-library conversion for other
  extensions is reduced to a success flag and a size.
- The switch parsing, the help text, `Create256ColorsPalette` and `Create16ColorsPalette`
  are command-line utilities outside the encoder and are not modelled.
- The font table in comment at parser.cpp:174-187 is dead code and is not modelled.
- The 32-bit signed products and sums of the grid geometry (`numX*numY`, pixel addresses)
  are unbounded integers. The byte counter's 32-bit wrap-around and the 16-bit truncation
  of index entries are modelled.
- FrontEnd.Run: the exit code is start address + size as an unbounded integer. The
  process exit status's width is not modelled, and the start address's declaration is
  not part of this model.
- FrontEndOld.Run: an absent (NULL) file name is the empty string.
- Block.C4 / Parser.Index4: the 4-bit index uses the corrected nearest search over
  entries 1..count (ColorMap.NearestColor), not GetNearestColorIndex's 1..count+1. When
  entry count+1 is the nearest, the source gives count+1 and the model a lower index.
- Pack.PixelValue: its 4-bit value is Block.C4's, so it carries the same substitution.
- RleTable.RunValues: the corrected half's values. The encoder uses
  RleTable.OpaqueRun4AsWritten, which gives every pixel the run's first colour.
- OpaqueBytes4: states the corrected packing (RleTable.FixedRunData), the Findings row's
  intended half. The bytes as written are stated by RleTableFacts.WrittenOpaqueBytes4.
- DecodeTableBytes: reads back the corrected bytes (RleTable.FixedTableBytes). The bytes
  as written are read back by RleTableFacts.WrittenTableReadsBack.
- RleTableFacts.RunTableRoundTrip: lossless for the corrected RLE0 4-bit packing only.
  As written, RleTableFacts.WrittenTableReadsBack and WrittenTableRoundTrip state what
  the table gives back.
- WrittenTableReadsBack: assumes a leftover byte of 0 at RLE0 4 bits. Any other value is
  ORed into a run's first byte (RleTableFacts.UninitialisedByte), and the model does not
  say what it reads back as.
- Parser.ParseImage: its call sequence uses the corrected nearest search (see Block.C4).
  Every other call it writes follows the code.
- FrontEnd.Run: the best search is the corrected Selection.BestScheme, not
  Selection.BestSchemeAsWritten. The two differ only when a trial gives 0 bytes.
- FrontEndOld.Run: the best search is the corrected Selection.BestScheme, not
  Selection.BestSchemeAsWritten, with the same difference.
- Negative sizes or counts (`sizeX`, `sizeY`, `numX`, `numY`) are outside the encoder's
  model (its `Geometry` requirement). The source does not check them.
- main's inline steps are split into separate methods (scheme choice, checks, downgrades,
  clamps, exporter choice); their order is kept.

## Findings

| source | as written | input that shows it | evidently intended | confidence | as-written member | corrected member |
|---|---|---|---|---|---|---|
| src/parser.cpp:47 | the nearest-colour loop runs i from 1 to count+1 | the default palCount 15 with the 16-entry MSX1 palette reads `pal[16]`, past the table | search entries 1..count | not executed | ColorMap.GetNearestColorIndex, ColorMap.DefaultCountReadsPastPalette | ColorMap.NearestColorIndex, ColorMap.NearestColorIsNearest |
| src/color.cpp:32-33 | the GRB8 decode takes R from bits 5-7 and G from bits 2-4, which hold G and R | pure green (0, 255, 0) encodes to 0xE0, which decodes to pure red | R from bits 2-4, G from bits 5-7 | not executed | Color.FromGRB8SwapsRedGreen, Color.FromGRB8GreenBecomesRed | Color.FromGRB8Fixed, Color.FromGRB8FixedKeepsChannels |
| src/parser.cpp:292-295 | an opaque RLE0 run at 4 bits per colour packs the run's first colour for every pixel, into a byte that starts uninitialised | a two-pixel run with indices x != y is written as [x:4, x:4]; an index-0 pixel over a leftover 1 is written as 1 | each pixel's own index, packed into a byte that starts at 0 | not executed | RleTableFacts.FirstColourRepeated, RleTableFacts.UninitialisedByte | Parser.EmitOpaqueRun4, RleTableFacts.RunTableRoundTrip |
| src/CMSXimg.cpp:577 | `bestSize == 0` marks "no candidate yet", but a trial can itself give 0 bytes | trials Crop16 of 0 bytes then CropLine16 of 7 bytes select CropLine16 | keep the first trial of least size | not executed | Selection.BestSchemeAsWritten, Selection.ZeroSizeIsUnset | Selection.BestScheme, Selection.IsBestUnique |
