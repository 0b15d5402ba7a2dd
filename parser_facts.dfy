// Facts the encoder's loops rely on: how the specification functions grow by one step.
module ParserFacts {
  import opened Types
  import opened Params
  import opened Color
  import opened ColorMap
  import opened Exporter
  import opened ExportCalls
  import opened Block
  import opened Pack
  import opened Rle
  import opened RleTable
  import opened Encoding
  import EncodingFacts

  /** Appending a run of calls after a prefix, regrouped. */
  lemma AppendAssoc(t0: seq<Call>, calls: seq<Call>, more: seq<Call>)
    ensures t0 + (calls + more) == (t0 + calls) + more
  {
  }

  /** One column of a line: columns outside [lo, hi] change nothing; a column inside adds
      its pixel at the block's depth. */
  lemma LineStep(c: Ctx, nx: int, ny: int, j: int, lo: int, hi: int, i: nat)
    requires PalOk(c) && i < c.p.sizeX
    ensures var vals := RowValues(c, nx, ny, j);
      var base := Addr(c, nx, ny, 0, j);
      var a := LineData(c.p.bpc, vals, base, lo, hi, i);
      var a' := LineData(c.p.bpc, vals, base, lo, hi, i + 1);
      var rgb := Rgb(c, nx, ny, i, j);
      && (!(lo <= i <= hi) ==> a' == a)
      && (lo <= i <= hi && c.p.bpc == 8 ==> a' == Step8(a, GetGBR8(rgb, c.trans)))
      && (lo <= i <= hi && c.p.bpc == 4 ==> a' == Step4(a, C4(c, rgb), i, i == hi))
      && (lo <= i <= hi && c.p.bpc == 1 ==> a' == Step1(a, Lit(c, rgb), Addr(c, nx, ny, i, j), i == hi))
      && (c.p.bpc != 8 && c.p.bpc != 4 && c.p.bpc != 1 ==> a' == a)
  {
    AddrColumn(c, nx, ny, i, j);
  }

  /** The run table of a scan extended by one pixel is the table after one more step. */
  lemma RunsSnoc(comp: Compressor, trans: u32, s: seq<u32>, x: u32)
    requires comp.IsRLE()
    ensures Runs(comp, trans, s + [x]) == Step(comp, trans, Runs(comp, trans, s), x)
  {
    assert (s + [x])[..|s|] == s;
  }

  /** The pixels of a block scanned up to pixel i of row j. */
  function Scan(c: Ctx, nx: int, ny: int, j: nat, i: int): seq<u32>
    requires 0 <= i <= c.p.sizeX
  {
    ScanRows(c, nx, ny, j) + Row(c, nx, ny, j)[..i]
  }

  /** Scanning pixel i of row j steps the run table once. */
  lemma RunsScanStep(c: Ctx, nx: int, ny: int, j: nat, i: int)
    requires c.p.comp.IsRLE() && 0 <= i < c.p.sizeX
    ensures Runs(c.p.comp, c.trans, Scan(c, nx, ny, j, i + 1))
         == Step(c.p.comp, c.trans, Runs(c.p.comp, c.trans, Scan(c, nx, ny, j, i)), Rgb(c, nx, ny, i, j))
  {
    var r := Row(c, nx, ny, j);
    assert r[..i + 1] == r[..i] + [r[i]];
    assert Scan(c, nx, ny, j, i + 1) == Scan(c, nx, ny, j, i) + [Rgb(c, nx, ny, i, j)];
    RunsSnoc(c.p.comp, c.trans, Scan(c, nx, ny, j, i), Rgb(c, nx, ny, i, j));
  }

  /** A row's scan starts from the rows before it. */
  lemma ScanRowStart(c: Ctx, nx: int, ny: int, j: nat)
    requires c.p.sizeX >= 0
    ensures Scan(c, nx, ny, j, 0) == ScanRows(c, nx, ny, j)
  {
    assert Row(c, nx, ny, j)[..0] == [];
  }

  /** A whole row scanned is the start of the next row. */
  lemma ScanRowDone(c: Ctx, nx: int, ny: int, j: nat)
    requires c.p.sizeX >= 0
    ensures Scan(c, nx, ny, j, c.p.sizeX) == Scan(c, nx, ny, j + 1, 0)
  {
    assert Row(c, nx, ny, j)[..c.p.sizeX] == Row(c, nx, ny, j);
    ScanRowStart(c, nx, ny, j + 1);
  }

  /** One pixel of a whole-run packing at 4 bits per colour. */
  lemma Fold4Step(v: seq<u8>, l: nat)
    requires ValuesOk(4, v) && l < |v|
    ensures Fold4(v, 0, |v| - 1, l + 1) == Step4(Fold4(v, 0, |v| - 1, l), v[l], l, l == |v| - 1)
  {
  }

  /** One more pixel of an opaque RLE0 run at 8 bits per colour. */
  lemma GbrSnoc(t0: seq<Call>, trans: u32, data: seq<u32>, l: nat)
    requires l < |data|
    ensures t0 + GbrCalls(trans, data[..l + 1]) == (t0 + GbrCalls(trans, data[..l])) + [ByteData(GetGBR8(data[l], trans))]
  {
    assert GbrCalls(trans, data[..l + 1]) == GbrCalls(trans, data[..l]) + [ByteData(GetGBR8(data[l], trans))];
  }

  /** One more run of the table. */
  lemma RunsCallsSnoc(c: Ctx, runs: seq<Run>, k: nat)
    requires PalOk(c) && k < |runs|
    ensures RunsCalls(c, runs[..k + 1]) == RunsCalls(c, runs[..k]) + ([LineBegin] + RunData(c, runs[k]) + [LineEnd])
  {
    assert runs[..k + 1][..k] == runs[..k];
  }

  /** A line's calls, regrouped as the writes make them. */
  lemma LineRegroup(t: seq<Call>, data: seq<Call>)
    ensures t + ([LineBegin] + data + [LineEnd]) == t + [LineBegin] + data + [LineEnd]
  {
  }

  lemma PaletteCallsSnoc(pal: seq<u32>, n: nat)
    requires n + 1 < |pal|
    ensures PaletteCalls(pal, n + 1) == PaletteCalls(pal, n) + [PaletteEntry(pal[n + 1])]
  {
    var a, b := PaletteCalls(pal, n + 1), PaletteCalls(pal, n) + [PaletteEntry(pal[n + 1])];
    forall k | 0 <= k < n + 1
      ensures a[k] == b[k]
    {
    }
  }

  /** The calls of an encoding run after `t0`, assembled from its parts. */
  lemma Assemble(t0: seq<Call>, t1: seq<Call>, t2: seq<Call>, t3: seq<Call>, run: seq<Call>,
                 pre: seq<Call>, grid: seq<Call>, tables: seq<Call>)
    requires t1 == t0 + pre && t2 == t1 + grid && t3 == t2 + tables
    requires run == pre + grid + tables
    ensures t3 == t0 + run
  {
  }

  /** The preamble, then the grid of blocks `f`, then the tables with the grid's entries,
      make the calls of a run that started on the trace t0. */
  lemma RunAssembled(c: Ctx, f: (int, int) -> BlockOut, t0: seq<Call>, t1: seq<Call>, t2: seq<Call>,
                     t3: seq<Call>, entries: seq<u16>)
    requires Encodable(c)
    requires var outs := GridCells(f, c.p.numX, c.p.numY);
      && t1 == t0 + Preamble(c) && t2 == t1 + Grid(outs)
      && entries == Entries(outs, Size(t1), c.noEntry) && t3 == t2 + Tables(c, entries)
    ensures t3 == t0 + ImageCalls(c, f, Size(t0))
  {
    RunParts(c, GridCells(f, c.p.numX, c.p.numY), t0, t1, t2, t3, entries);
  }

  /** The same, for any sequence of block outcomes. */
  lemma RunParts(c: Ctx, outs: seq<BlockOut>, t0: seq<Call>, t1: seq<Call>, t2: seq<Call>,
                 t3: seq<Call>, entries: seq<u16>)
    requires PalOk(c)
    requires t1 == t0 + Preamble(c) && t2 == t1 + Grid(outs)
    requires entries == Entries(outs, Size(t1), c.noEntry) && t3 == t2 + Tables(c, entries)
    ensures t3 == t0 + ImageOf(c, outs, Size(t0))
  {
    PreambleSizeAfter(c, t0, t1);
    EntriesFrom(outs, Size(t1), Size(t0) + PreambleLength(c), c.noEntry);
    ImageOfParts(c, outs, Size(t0), entries);
    Assemble(t0, t1, t2, t3, ImageOf(c, outs, Size(t0)), Preamble(c), Grid(outs), Tables(c, entries));
  }

  lemma ImageOfParts(c: Ctx, outs: seq<BlockOut>, base: nat, entries: seq<u16>)
    requires PalOk(c) && entries == Entries(outs, base + PreambleLength(c), c.noEntry)
    ensures ImageOf(c, outs, base) == Preamble(c) + Grid(outs) + Tables(c, entries)
  {
  }

  lemma EntriesFrom(outs: seq<BlockOut>, s1: nat, s2: nat, noEntry: u16)
    requires s1 == s2
    ensures Entries(outs, s1, noEntry) == Entries(outs, s2, noEntry)
  {
  }

  lemma PreambleSizeAfter(c: Ctx, t0: seq<Call>, t1: seq<Call>)
    requires t1 == t0 + Preamble(c)
    ensures Size(t1) == Size(t0) + PreambleLength(c)
  {
    SizeAppend(t0, Preamble(c));
    EncodingFacts.PreambleSize(c);
  }

  lemma TablesParts(c: Ctx, entries: seq<u16>)
    requires PalOk(c)
    ensures Tables(c, entries) == [TableEnd] + IndexTable(c, entries) + PaletteTable(c)
  {
  }


}
