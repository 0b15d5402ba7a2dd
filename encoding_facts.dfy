// What the output of an encoding run means to a reader: the tables decode to the
// parameters, every index entry is the offset of its block's bytes, and an uncompressed
// block holds its rows packed one after the other.
module EncodingFacts {
  import opened Types
  import opened Params
  import opened Color
  import opened Exporter
  import opened ExportCalls
  import opened Block
  import opened Crop
  import opened Pack
  import opened RleTable
  import opened RleTableFacts
  import opened Encoding

  // ------------------------------------------------------------------------------------
  // Tables.

  lemma HeaderWordsBytes(w1: u16, w2: u16, w3: u16, w4: u16)
    ensures Bytes([TableBegin, TwoWordsLine(w1, w2), TwoWordsLine(w3, w4)])
         == WordBytes(w1) + WordBytes(w2) + WordBytes(w3) + WordBytes(w4)
  {
    var t0: seq<Call> := [TableBegin];
    var t1 := t0 + [TwoWordsLine(w1, w2)];
    assert [TableBegin, TwoWordsLine(w1, w2), TwoWordsLine(w3, w4)] == t1 + [TwoWordsLine(w3, w4)];
    assert Bytes(t0) == [] by { BytesSnoc([], TableBegin); assert [] + [TableBegin] == t0; }
    BytesSnoc(t0, TwoWordsLine(w1, w2));
    BytesSnoc(t1, TwoWordsLine(w3, w4));
  }

  lemma HeaderFlagsBytes(b1: u8, b2: u8, b3: u8)
    ensures Bytes([ByteLine(b1), ByteLine(b2), ByteLine(b3), TableEnd]) == [b1, b2, b3]
  {
    var t1: seq<Call> := [ByteLine(b1)];
    var t2 := t1 + [ByteLine(b2)];
    var t3 := t2 + [ByteLine(b3)];
    assert [ByteLine(b1), ByteLine(b2), ByteLine(b3), TableEnd] == t3 + [TableEnd];
    assert Bytes(t1) == [b1] by { BytesSnoc([], ByteLine(b1)); assert [] + [ByteLine(b1)] == t1; }
    BytesSnoc(t1, ByteLine(b2));
    BytesSnoc(t2, ByteLine(b3));
    BytesSnoc(t3, TableEnd);
  }

  /** The bytes of a header table with the given fields. */
  lemma HeaderBytes(w1: u16, w2: u16, w3: u16, w4: u16, b1: u8, b2: u8, b3: u8)
    ensures Bytes([TableBegin, TwoWordsLine(w1, w2), TwoWordsLine(w3, w4), ByteLine(b1), ByteLine(b2), ByteLine(b3), TableEnd])
         == WordBytes(w1) + WordBytes(w2) + WordBytes(w3) + WordBytes(w4) + [b1, b2, b3]
  {
    var x: seq<Call> := [TableBegin, TwoWordsLine(w1, w2), TwoWordsLine(w3, w4)];
    var y: seq<Call> := [ByteLine(b1), ByteLine(b2), ByteLine(b3), TableEnd];
    assert [TableBegin, TwoWordsLine(w1, w2), TwoWordsLine(w3, w4), ByteLine(b1), ByteLine(b2), ByteLine(b3), TableEnd] == x + y;
    HeaderWordsBytes(w1, w2, w3, w4);
    HeaderFlagsBytes(b1, b2, b3);
    BytesAppend(x, y);
  }

  lemma ReadHeaderBytes(w1: u16, w2: u16, w3: u16, w4: u16, b1: u8, b2: u8, b3: u8)
    ensures var bs := WordBytes(w1) + WordBytes(w2) + WordBytes(w3) + WordBytes(w4) + [b1, b2, b3];
      |bs| == 11 && ReadHeader(bs) == TableHeader(w1, w2, w3, w4, b1, b2, b3)
  {
  }

  /** The header table reads back as the 16-bit sizes and counts, the 8-bit depth, the
      scheme code and the skip flag; without it nothing is written. */
  lemma HeaderTableRoundTrip(c: Ctx)
    ensures !c.p.addHeader ==> HeaderTable(c) == []
    ensures c.p.addHeader ==> (|Bytes(HeaderTable(c))| == 11 &&
      ReadHeader(Bytes(HeaderTable(c))) ==
        TableHeader(Wrap16(c.p.sizeX), Wrap16(c.p.sizeY), Wrap16(c.p.numX), Wrap16(c.p.numY),
                    Wrap8(c.p.bpc), c.compCode, if c.p.skipEmpty then 1 else 0))
  {
    if c.p.addHeader {
      var p := c.p;
      var skip: u8 := if p.skipEmpty then 1 else 0;
      HeaderBytes(Wrap16(p.sizeX), Wrap16(p.sizeY), Wrap16(p.numX), Wrap16(p.numY), Wrap8(p.bpc), c.compCode, skip);
      ReadHeaderBytes(Wrap16(p.sizeX), Wrap16(p.sizeY), Wrap16(p.numX), Wrap16(p.numY), Wrap8(p.bpc), c.compCode, skip);
    }
  }

  /** The font header: 0x80 plus the row count's low nibble, the glyph size as two nibbles,
      then the first and last character codes. */
  lemma FontHeaderFields(c: Ctx)
    ensures !c.p.addFont ==> FontHeader(c) == []
    ensures c.p.addFont ==>
      var bs := Bytes(FontHeader(c));
      && |bs| == 4
      && bs[0] / 16 == 8 && bs[0] % 16 == c.p.sizeY % 16
      && bs[1] / 16 == c.p.fontX % 16 && bs[1] % 16 == c.p.fontY % 16
      && bs[2] == Wrap8(c.p.fontFirst) && bs[3] == Wrap8(c.p.fontLast)
  {
    if c.p.addFont {
      var p := c.p;
      FontHeaderBytes(c);
      Pack16(8, p.sizeY % 16);
      Pack16(p.fontX % 16, p.fontY % 16);
    }
  }

  /** The four bytes of the font header, one per byte line after the comment. */
  lemma FontHeaderBytes(c: Ctx)
    requires c.p.addFont
    ensures var p := c.p;
      Bytes(FontHeader(c)) == [Wrap8(0x80 + p.sizeY % 16), Wrap8((p.fontX % 16) * 16 + p.fontY % 16),
                               Wrap8(p.fontFirst), Wrap8(p.fontLast)]
  {
    var p := c.p;
    CommentAndBytes(Wrap8(0x80 + p.sizeY % 16), Wrap8((p.fontX % 16) * 16 + p.fontY % 16),
                    Wrap8(p.fontFirst), Wrap8(p.fontLast));
  }

  lemma CommentAndBytes(a: u8, b: u8, d: u8, e: u8)
    ensures Bytes([CommentLine, ByteLine(a), ByteLine(b), ByteLine(d), ByteLine(e)]) == [a, b, d, e]
  {
    var t0: seq<Call> := [CommentLine];
    var t1 := t0 + [ByteLine(a)];
    var t2 := t1 + [ByteLine(b)];
    var t3 := t2 + [ByteLine(d)];
    assert [CommentLine, ByteLine(a), ByteLine(b), ByteLine(d), ByteLine(e)] == t3 + [ByteLine(e)];
    assert Bytes(t0) == [] by { BytesSnoc([], CommentLine); assert [] + [CommentLine] == t0; }
    assert Bytes(t1) == [a] by { BytesSnoc(t0, ByteLine(a)); }
    assert Bytes(t2) == [a, b] by { BytesSnoc(t1, ByteLine(b)); }
    assert Bytes(t3) == [a, b, d] by { BytesSnoc(t2, ByteLine(d)); }
    BytesSnoc(t3, ByteLine(e));
  }

  /** Everything before the first block: 11 bytes of header table, 4 of font header. */
  lemma PreambleSize(c: Ctx)
    ensures Size(Preamble(c)) == PreambleLength(c)
  {
    HeaderTableRoundTrip(c);
    FontHeaderFields(c);
    BytesLength(HeaderTable(c));
    BytesLength(FontHeader(c));
    SizeAppend([Header], HeaderTable(c));
    SizeAppend([Header] + HeaderTable(c), [TableBegin]);
    SizeAppend([Header] + HeaderTable(c) + [TableBegin], FontHeader(c));
    assert Size([Header]) == 0 by { SizeSnoc([], Header); assert [] + [Header] == [Header]; }
    assert Size([TableBegin]) == 0 by { SizeSnoc([], TableBegin); assert [] + [TableBegin] == [TableBegin]; }
  }

  lemma IndexCallsSnoc(a: seq<u16>, w: u16)
    ensures IndexCalls(a + [w]) == IndexCalls(a) + [WordLine(w)]
  {
  }

  lemma ReadWordsSnoc(bs: seq<int>, w: u16)
    requires |bs| % 2 == 0
    ensures ReadWords(bs + WordBytes(w)) == ReadWords(bs) + [w as int]
  {
    var l := ReadWords(bs + WordBytes(w));
    var r := ReadWords(bs) + [w as int];
    assert |l| == |r|;
    forall k | 0 <= k < |l|
      ensures l[k] == r[k]
    {
      if k < |bs| / 2 {
        assert (bs + WordBytes(w))[2 * k] == bs[2 * k];
        assert (bs + WordBytes(w))[2 * k + 1] == bs[2 * k + 1];
      }
    }
  }

  /** The index table's words read back as the entries, two bytes each. */
  lemma {:induction false} IndexRoundTrip(a: seq<u16>)
    ensures |Bytes(IndexCalls(a))| == 2 * |a|
    ensures ReadWords(Bytes(IndexCalls(a))) == a
    decreases |a|
  {
    if a == [] {
      assert IndexCalls(a) == [];
    } else {
      var init := a[..|a| - 1];
      var w := a[|a| - 1];
      assert a == init + [w];
      IndexRoundTrip(init);
      IndexCallsSnoc(init, w);
      BytesSnoc(IndexCalls(init), WordLine(w));
      ReadWordsSnoc(Bytes(IndexCalls(init)), w);
    }
  }

  /** A custom palette entry holds the top three bits of red and blue in the first byte's
      nibbles and those of green in the second byte. */
  lemma PaletteEntryFields(rgb: u32)
    ensures var col := FromU32(rgb); var bs := CallBytes(PaletteEntry(rgb));
      |bs| == 2 && bs[0] / 16 == col.R / 32 && bs[0] % 16 == col.B / 32 && bs[1] == col.G / 32
      && bs[0] <= 0x77 && bs[1] <= 7
  {
    var col := FromU32(rgb);
    Pack16(col.R / 32, col.B / 32);
  }

  // ------------------------------------------------------------------------------------
  // Uncompressed blocks.

  /** Every row of a block starts on a byte of the 1-bit buffer. */
  predicate RowsAligned(c: Ctx, nx: int, ny: int)
  {
    forall j :: 0 <= j < c.p.sizeY ==> ByteAligned(c, nx, ny, 0, j)
  }

  /** A line holds the reference packing of its columns at 8, 4 and 1 bits per colour. */
  lemma LinePacked(c: Ctx, nx: int, ny: int, j: int, lo: int, hi: int)
    requires PalOk(c) && (c.p.bpc == 8 || c.p.bpc == 4 || c.p.bpc == 1)
    requires 0 <= lo <= hi + 1 <= c.p.sizeX
    requires c.p.bpc == 4 ==> lo % 2 == 0
    requires c.p.bpc == 1 ==> ByteAligned(c, nx, ny, lo, j)
    ensures Bytes(Line(c, nx, ny, j, lo, hi).calls) == Packed(c.p.bpc, RowValues(c, nx, ny, j)[lo..hi + 1])
  {
    var v := RowValues(c, nx, ny, j)[lo..hi + 1];
    if c.p.bpc == 8 {
      LineCalls8(c, nx, ny, j, lo, hi);
      DataCallsBytes(v);
    } else if c.p.bpc == 4 {
      LineCalls4(c, nx, ny, j, lo, hi);
      DataCallsNibbleBytes(v);
    } else {
      LineCalls1(c, nx, ny, j, lo, hi);
      BitsBytes(v);
      BitsCallsBytes(Bits(v));
    }
  }

  /** The box of a block without a crop scheme is the whole block. */
  lemma PlainBox(c: Ctx, nx: int, ny: int)
    requires c.p.sizeX >= 0 && c.p.sizeY >= 0 && !c.p.comp.IsCrop()
    ensures var b := DataBox(c, nx, ny);
      b.minX == 0 && b.maxX == c.p.sizeX - 1 && b.minY == 0 && b.maxY == c.p.sizeY - 1
  {
    if c.p.useTrans {
      BlockBoxWhole(c, nx, ny);
    }
  }

  lemma PlainRowCalls(c: Ctx, nx: int, ny: int, j: int, box: Box)
    requires PalOk(c) && c.p.sizeX >= 0 && !c.p.comp.IsCropLine()
    requires box.minX == 0 && box.maxX == c.p.sizeX - 1 && box.minY <= j <= box.maxY
    ensures RowCalls(c, nx, ny, j, box) == [LineBegin] + Line(c, nx, ny, j, 0, c.p.sizeX - 1).calls + [LineEnd]
  {
  }

  /** Rows written whole, from column 0, at 8, 4 or 1 bits per colour, and at 1 bit per
      colour starting on byte boundaries. */
  predicate PlainSetting(c: Ctx, nx: int, ny: int, box: Box)
  {
    && PalOk(c) && c.p.sizeX >= 0 && !c.p.comp.IsCropLine()
    && (c.p.bpc == 8 || c.p.bpc == 4 || c.p.bpc == 1)
    && box.minX == 0 && box.maxX == c.p.sizeX - 1 && box.minY == 0 && box.maxY == c.p.sizeY - 1
    && (c.p.bpc == 1 ==> RowsAligned(c, nx, ny))
  }

  lemma PlainRowStep(c: Ctx, nx: int, ny: int, box: Box, k: nat)
    requires PlainSetting(c, nx, ny, box) && k < c.p.sizeY
    ensures Bytes(RowsCalls(c, nx, ny, box, k + 1))
         == Bytes(RowsCalls(c, nx, ny, box, k)) + Packed(c.p.bpc, RowValues(c, nx, ny, k))
  {
    RowsCallsNext(c, nx, ny, box, k);
    var line := Line(c, nx, ny, k, 0, c.p.sizeX - 1).calls;
    PlainRowCalls(c, nx, ny, k, box);
    LineBytes(RowsCalls(c, nx, ny, box, k), line);
    WholeLinePacked(c, nx, ny, box, k);
  }

  /** A whole row's line holds the row's packing. */
  lemma WholeLinePacked(c: Ctx, nx: int, ny: int, box: Box, k: nat)
    requires PlainSetting(c, nx, ny, box) && k < c.p.sizeY
    ensures Bytes(Line(c, nx, ny, k, 0, c.p.sizeX - 1).calls) == Packed(c.p.bpc, RowValues(c, nx, ny, k))
  {
    var hi := c.p.sizeX - 1;
    assert c.p.bpc == 1 ==> ByteAligned(c, nx, ny, 0, k);
    LinePacked(c, nx, ny, k, 0, hi);
    assert RowValues(c, nx, ny, k)[0..hi + 1] == RowValues(c, nx, ny, k);
  }

  lemma {:induction false} PlainRowsBytes(c: Ctx, nx: int, ny: int, box: Box, j: nat)
    requires PlainSetting(c, nx, ny, box) && j <= c.p.sizeY
    ensures Bytes(RowsCalls(c, nx, ny, box, j)) == PlainRows(c, nx, ny, j)
    decreases j
  {
    if j > 0 {
      var k := j - 1;
      var row := Packed(c.p.bpc, RowValues(c, nx, ny, k));
      PlainRowsBytes(c, nx, ny, box, k);
      PlainRowStep(c, nx, ny, box, k);
      PlainRowsNext(c, nx, ny, k);
      assert Bytes(RowsCalls(c, nx, ny, box, k)) + row == PlainRows(c, nx, ny, k) + row;
    }
  }

  lemma RowsCallsNext(c: Ctx, nx: int, ny: int, box: Box, k: nat)
    requires PalOk(c) && c.p.sizeX >= 0
    ensures RowsCalls(c, nx, ny, box, k + 1) == RowsCalls(c, nx, ny, box, k) + RowCalls(c, nx, ny, k, box)
  {
  }

  lemma PlainRowsNext(c: Ctx, nx: int, ny: int, k: nat)
    requires PalOk(c)
    ensures PlainRows(c, nx, ny, k + 1) == PlainRows(c, nx, ny, k) + Packed(c.p.bpc, RowValues(c, nx, ny, k))
  {
  }

  /** An uncompressed block that is written holds its rows, each packed from column 0. */
  lemma PlainBlockBytes(c: Ctx, nx: int, ny: int)
    requires PalOk(c) && c.p.sizeX >= 0 && c.p.sizeY >= 0 && c.p.comp == Compressor.None
    requires c.p.bpc == 8 || c.p.bpc == 4 || c.p.bpc == 1
    requires c.p.bpc == 1 ==> RowsAligned(c, nx, ny)
    ensures BlockCalls(c, nx, ny).Skipped? <==> c.p.useTrans && c.p.skipEmpty && BlockBox(c, nx, ny).count == 0
    ensures BlockCalls(c, nx, ny).Emitted? ==> Bytes(Out(BlockCalls(c, nx, ny))) == PlainRows(c, nx, ny, c.p.sizeY)
  {
    if BlockCalls(c, nx, ny).Emitted? {
      var box := DataBox(c, nx, ny);
      PlainBox(c, nx, ny);
      assert Out(BlockCalls(c, nx, ny)) == RowsCalls(c, nx, ny, box, c.p.sizeY);
      PlainRowsBytes(c, nx, ny, box, c.p.sizeY);
    }
  }

  /** The byte count of a packed row of n values. */
  function RowSize(bpc: int, n: nat): nat
  {
    if bpc == 8 then n else if bpc == 4 then (n + 1) / 2 else if bpc == 1 then (n + 7) / 8 else 0
  }

  lemma PackedSize(bpc: int, s: seq<u8>)
    ensures |Packed(bpc, s)| == RowSize(bpc, |s|)
  {
  }

  lemma MulSucc(j: nat, r: nat)
    ensures j * r + r == (j + 1) * r
  {
  }

  /** j uncompressed rows take j times a row's bytes. */
  lemma {:induction false} PlainRowsSize(c: Ctx, nx: int, ny: int, j: nat)
    requires PalOk(c) && c.p.sizeX >= 0
    ensures |PlainRows(c, nx, ny, j)| == j * RowSize(c.p.bpc, c.p.sizeX)
  {
    if j > 0 {
      PlainRowsSize(c, nx, ny, j - 1);
      PackedSize(c.p.bpc, RowValues(c, nx, ny, j - 1));
      MulSucc(j - 1, RowSize(c.p.bpc, c.p.sizeX));
    }
  }
}
