// Where each block lands in the output, and the index entry that points at it.
module GridFacts {
  import opened Types
  import opened Exporter
  import opened ExportCalls
  import opened Block
  import opened Encoding
  import EncodingFacts

  lemma SpriteBytes(t: seq<Call>, k: int, b: seq<Call>)
    ensures Bytes(t + ([SpriteHeader(k)] + b)) == Bytes(t) + Bytes(b)
  {
    calc {
      Bytes(t + ([SpriteHeader(k)] + b));
      { BytesAppend(t, [SpriteHeader(k)] + b); }
      Bytes(t) + Bytes([SpriteHeader(k)] + b);
      { HeaderBytes(k, b); }
      Bytes(t) + Bytes(b);
    }
  }

  /** A sprite header stands for no bytes. */
  lemma HeaderBytes(k: int, b: seq<Call>)
    ensures Bytes([SpriteHeader(k)] + b) == Bytes(b)
  {
    BytesAppend([SpriteHeader(k)], b);
    BytesSnoc([], SpriteHeader(k));
    assert [] + [SpriteHeader(k)] == [SpriteHeader(k)];
    assert [] + Bytes(b) == Bytes(b);
  }

  lemma GridSnoc(outs: seq<BlockOut>, o: BlockOut)
    ensures Grid(outs + [o]) == Grid(outs) + ([SpriteHeader(|outs|)] + Out(o))
  {
    assert (outs + [o])[..|outs|] == outs;
  }

  /** The calls of the first k blocks are a prefix of those of all of them. */
  lemma {:induction false} GridPrefix(outs: seq<BlockOut>, k: nat) returns (rest: seq<Call>)
    requires k <= |outs|
    ensures Grid(outs) == Grid(outs[..k]) + rest
    decreases |outs|
  {
    if |outs| == k {
      assert outs[..k] == outs;
      rest := [];
    } else {
      var init := outs[..|outs| - 1];
      var r0 := GridPrefix(init, k);
      assert init[..k] == outs[..k];
      rest := r0 + ([SpriteHeader(|outs| - 1)] + Out(outs[|outs| - 1]));
    }
  }

  /** The grid splits around block k: the blocks before it, its sprite header and calls,
      then the rest. */
  lemma GridSplit(outs: seq<BlockOut>, k: nat) returns (rest: seq<Call>)
    requires k < |outs|
    ensures Grid(outs) == Grid(outs[..k]) + ([SpriteHeader(k)] + Out(outs[k])) + rest
  {
    rest := GridPrefix(outs, k + 1);
    assert outs[..k + 1] == outs[..k] + [outs[k]];
    GridSnoc(outs[..k], outs[k]);
  }

  lemma EntryValue(outs: seq<BlockOut>, s0: nat, noEntry: u16, k: nat)
    requires k < |outs| && outs[k].Emitted?
    ensures Entries(outs, s0, noEntry)[k] == Wrap16(s0 + Size(Grid(outs[..k])))
  {
    EntryAt(outs, s0, noEntry, k);
    DataSizeIsSize(outs[..k]);
  }

  /** DataSize counts the bytes of the grid's calls. */
  lemma {:induction false} DataSizeIsSize(outs: seq<BlockOut>)
    ensures DataSize(outs) == Size(Grid(outs))
  {
    if outs != [] {
      var init := outs[..|outs| - 1];
      var k := |outs| - 1;
      DataSizeIsSize(init);
      SizeAppend(Grid(init), [SpriteHeader(k)] + Out(outs[k]));
      SizeAppend([SpriteHeader(k)], Out(outs[k]));
      SizeSnoc([], SpriteHeader(k));
      assert [] + [SpriteHeader(k)] == [SpriteHeader(k)];
    }
  }

  lemma Regroup(a: seq<u8>, b: seq<u8>, c: seq<u8>, d: seq<u8>, e: seq<u8>)
    ensures a + (b + c + d) + e == (a + b) + c + (d + e)
  {
  }

  /** The grid's bytes are those of the blocks before block k, then block k's, then the
      rest. */
  lemma GridBytesSplit(outs: seq<BlockOut>, k: nat) returns (y: seq<u8>)
    requires k < |outs|
    ensures Bytes(Grid(outs)) == Bytes(Grid(outs[..k])) + Bytes(Out(outs[k])) + y
  {
    var rest := GridSplit(outs, k);
    SpriteBytes(Grid(outs[..k]), k, Out(outs[k]));
    BytesAppend(Grid(outs[..k]) + ([SpriteHeader(k)] + Out(outs[k])), rest);
    y := Bytes(rest);
  }

  /** Block k's bytes inside those of `pre`, the grid and `tail`, after the preamble's bytes
      and those of the blocks before it. */
  lemma BlockInOutput(pre: seq<Call>, outs: seq<BlockOut>, tail: seq<Call>, k: nat) returns (x: seq<u8>, y: seq<u8>)
    requires k < |outs| && outs[k].Emitted?
    ensures Bytes(pre + Grid(outs) + tail) == x + Bytes(outs[k].calls) + y
    ensures |x| == Size(pre) + Size(Grid(outs[..k]))
  {
    var y0 := GridBytesSplit(outs, k);
    BytesAppend(pre, Grid(outs));
    BytesAppend(pre + Grid(outs), tail);
    BytesLength(pre);
    BytesLength(Grid(outs[..k]));
    x := Bytes(pre) + Bytes(Grid(outs[..k]));
    y := y0 + Bytes(tail);
    Regroup(Bytes(pre), Bytes(Grid(outs[..k])), Bytes(outs[k].calls), y0, Bytes(tail));
  }

  lemma ParseSplit(c: Ctx)
    requires Encodable(c)
    ensures var outs := Blocks(c, c.p.numY);
      ParseCalls(c, 0) == Preamble(c) + Grid(outs) + Tables(c, Entries(outs, PreambleLength(c), c.noEntry))
  {
  }

  /** The first ny rows of a grid numX cells wide hold ny * numX cells. */
  lemma {:induction false} GridCellsLength<T>(f: (int, int) -> T, numX: nat, ny: nat)
    ensures |GridCells(f, numX, ny)| == ny * numX
  {
    if ny > 0 {
      GridCellsLength(f, numX, ny - 1);
      MulStep(ny, numX);
    }
  }

  lemma MulStep(n: int, d: int)
    ensures (n - 1) * d + d == n * d
  {
  }

  /** Cell i of a row is the cell in column i. */
  lemma {:induction false} RowCellAt<T>(f: (int, int) -> T, ny: int, n: nat, i: nat)
    requires i < n
    ensures RowCells(f, ny, n)[i] == f(i, ny)
  {
    if i < n - 1 {
      RowCellAt(f, ny, n - 1, i);
    }
  }

  /** Column i of row j follows the cells of the rows above row j. */
  lemma {:induction false} GridCellAt<T>(f: (int, int) -> T, numX: nat, ny: nat, i: nat, j: nat)
    requires i < numX && j < ny
    ensures |GridCells(f, numX, j)| + i < |GridCells(f, numX, ny)|
    ensures GridCells(f, numX, ny)[|GridCells(f, numX, j)| + i] == f(i, j)
  {
    var head := GridCells(f, numX, ny - 1);
    var row := RowCells(f, ny - 1, numX);
    var k := |GridCells(f, numX, j)| + i;
    if j < ny - 1 {
      GridCellAt(f, numX, ny - 1, i, j);
      assert (head + row)[k] == head[k];
    } else {
      RowCellAt(f, ny - 1, numX, i);
      assert (head + row)[k] == row[i];
    }
  }

  /** Block k of the grid is BlockAt(c, k): column k % numX of row k / numX. */
  lemma BlockOfGrid(c: Ctx, k: nat)
    requires Encodable(c) && k < NumBlocks(c)
    ensures c.p.numX > 0 && |Blocks(c, c.p.numY)| == NumBlocks(c)
    ensures Blocks(c, c.p.numY)[k] == BlockAt(c, k)
  {
    var numX := c.p.numX;
    GridPosition(numX, c.p.numY, k);
    var i, j := k % numX, k / numX;
    GridCellsLength(BlockFn(c), numX, j);
    GridCellsLength(BlockFn(c), numX, c.p.numY);
    GridCellAt(BlockFn(c), numX, c.p.numY, i, j);
  }

  /** Block k of a grid of numX by numY blocks lies in column k % numX of row k / numX. */
  lemma GridPosition(numX: int, numY: int, k: int)
    requires numX >= 0 && numY >= 0 && 0 <= k < numX * numY
    ensures numX > 0 && 0 <= k / numX < numY && k == k / numX * numX + k % numX
    ensures numY * numX == numX * numY
  {
    if numX == 0 {
      assert false;
    }
    if k / numX >= numY {
      MulAtLeast(k / numX - numY, numX);
      assert false;
    }
  }

  /** In the binary output of a fresh exporter, the index entry of every written block is,
      modulo 2^16, the number of bytes before that block's bytes (block k of the grid is
      BlockAt(c, k), by BlockOfGrid). */
  lemma OutputLocatesBlock(c: Ctx, k: nat) returns (x: seq<u8>, y: seq<u8>)
    requires Encodable(c) && k < |Blocks(c, c.p.numY)|
    requires Blocks(c, c.p.numY)[k].Emitted?
    ensures var outs := Blocks(c, c.p.numY);
      && Bytes(ParseCalls(c, 0)) == x + Bytes(outs[k].calls) + y
      && Entries(outs, PreambleLength(c), c.noEntry)[k] == Wrap16(|x|)
  {
    var pre := Preamble(c);
    var outs := Blocks(c, c.p.numY);
    ParseSplit(c);
    EncodingFacts.PreambleSize(c);
    x, y := LocateEntry(ParseCalls(c, 0), pre, outs, Tables(c, Entries(outs, PreambleLength(c), c.noEntry)),
                        PreambleLength(c), c.noEntry, k);
  }

  lemma LocateEntry(out: seq<Call>, pre: seq<Call>, outs: seq<BlockOut>, tail: seq<Call>,
                    s0: nat, noEntry: u16, k: nat) returns (x: seq<u8>, y: seq<u8>)
    requires out == pre + Grid(outs) + tail && k < |outs| && outs[k].Emitted? && s0 == Size(pre)
    ensures Bytes(out) == x + Bytes(outs[k].calls) + y
    ensures Entries(outs, s0, noEntry)[k] == Wrap16(|x|)
  {
    EntryValue(outs, s0, noEntry, k);
    x, y := BlockInOutput(pre, outs, tail, k);
  }

  /** A skipped block writes only its sprite header and gets the no-entry value. */
  lemma SkippedBlock(outs: seq<BlockOut>, s0: nat, noEntry: u16, k: nat)
    requires k < |outs| && outs[k].Skipped?
    ensures Entries(outs, s0, noEntry)[k] == noEntry
    ensures Bytes(Grid(outs[..k + 1])) == Bytes(Grid(outs[..k]))
  {
    EntryAt(outs, s0, noEntry, k);
    assert EntryOf(outs[k], s0 + DataSize(outs[..k]), noEntry) == noEntry;
    SkippedBytes(outs, k);
  }

  lemma SkippedBytes(outs: seq<BlockOut>, k: nat)
    requires k < |outs| && outs[k].Skipped?
    ensures Bytes(Grid(outs[..k + 1])) == Bytes(Grid(outs[..k]))
  {
    assert outs[..k + 1] == outs[..k] + [outs[k]];
    GridSnoc(outs[..k], outs[k]);
    SpriteBytes(Grid(outs[..k]), k, []);
    assert Grid(outs[..k]) + ([SpriteHeader(k)] + []) == Grid(outs[..k]) + [SpriteHeader(k)];
  }

  // ------------------------------------------------------------------------------------
  // The walk of the grid, one block at a time.

  /** Block (nx, ny) is number nx + ny * numX, and that number finds it again. */
  lemma GridIndex(numX: int, numY: int, nx: int, ny: int)
    requires 0 <= nx < numX && 0 <= ny < numY
    ensures var k := nx + ny * numX;
      0 <= k < numX * numY && k % numX == nx && k / numX == ny
  {
    var k := nx + ny * numX;
    assert ny * numX + numX == (ny + 1) * numX;
    assert (ny + 1) * numX <= numY * numX;
    assert numY * numX == numX * numY;
    DivUnique(k, numX, ny, nx);
  }

  lemma DivUnique(k: int, d: int, q: int, r: int)
    requires d > 0 && 0 <= r < d && k == q * d + r
    ensures k / d == q && k % d == r
  {
    var q', r' := k / d, k % d;
    assert (q - q') * d == r' - r;
    if q > q' {
      MulAtLeast(q - q', d);
    } else if q < q' {
      MulAtLeast(q' - q, d);
    }
  }

  lemma MulAtLeast(m: int, d: int)
    requires m >= 1 && d > 0
    ensures m * d >= d
  {
  }

  /** The next row of blocks starts numX blocks further, still inside the grid. */
  lemma GridRowEnd(numX: int, numY: int, ny: int)
    requires 0 <= numX && 0 <= ny < numY
    ensures ny * numX + numX == (ny + 1) * numX <= numX * numY
  {
    assert (ny + 1) * numX <= numY * numX;
    assert numY * numX == numX * numY;
  }

  /** One more block adds its entry, computed from the grid's calls before it. */
  lemma EntriesSnoc(outs: seq<BlockOut>, o: BlockOut, s0: nat, noEntry: u16)
    ensures Entries(outs + [o], s0, noEntry)
         == Entries(outs, s0, noEntry) + [EntryOf(o, s0 + DataSize(outs), noEntry)]
  {
    assert (outs + [o])[..|outs|] == outs;
  }

  /** Entry k is computed from block k and the blocks before it. */
  lemma {:induction false} EntryAt(outs: seq<BlockOut>, s0: nat, noEntry: u16, k: nat)
    requires k < |outs|
    ensures Entries(outs, s0, noEntry)[k] == EntryOf(outs[k], s0 + DataSize(outs[..k]), noEntry)
    decreases |outs|
  {
    var init := outs[..|outs| - 1];
    if k < |init| {
      EntryAt(init, s0, noEntry, k);
      assert init[..k] == outs[..k];
    } else {
      assert init == outs[..k];
    }
  }

  /** The grid holds numX * numY blocks, none when either count is zero. */
  lemma GridSize(numX: int, numY: int)
    requires numX >= 0 && numY >= 0
    ensures numX * numY >= 0 && (numX * numY == 0 || numX > 0) && numY * numX == numX * numY
  {
  }

  /** Before row ny of the grid come ny * numX blocks, and the row fits in the index. */
  lemma GridRowBounds<T>(f: (int, int) -> T, numX: nat, numY: nat, ny: nat, outs: seq<T>, n: int)
    requires ny < numY && outs == GridCells(f, numX, ny) && n == numX * numY
    ensures |outs| == ny * numX && |outs| + numX <= n
  {
    GridCellsLength(f, numX, ny);
    GridRowEnd(numX, numY, ny);
  }

  /** A grid of numY rows holds numX * numY cells. */
  lemma GridLength<T>(f: (int, int) -> T, numX: nat, numY: nat, outs: seq<T>)
    requires outs == GridCells(f, numX, numY)
    ensures |outs| == numX * numY
  {
    GridCellsLength(f, numX, numY);
    GridSize(numX, numY);
  }

  /** Row ny after the rows above it makes the rows up to ny. */
  lemma GridRowStep<T>(f: (int, int) -> T, numX: nat, ny: nat, outs0: seq<T>, outs: seq<T>)
    requires outs0 == GridCells(f, numX, ny) && outs == outs0 + RowCells(f, ny, numX)
    ensures outs == GridCells(f, numX, ny + 1)
  {
  }

  /** The block outcome function of a context gives every block's outcome. */
  lemma BlockFnOutcomes(c: Ctx)
    requires Encodable(c)
    ensures Outcomes(c, BlockFn(c)) && Blocks(c, c.p.numY) == GridCells(BlockFn(c), c.p.numX, c.p.numY)
  {
  }

  lemma RowSnoc<T>(outs0: seq<T>, f: (int, int) -> T, ny: int, n: nat)
    ensures outs0 + RowCells(f, ny, n) + [f(n, ny)] == outs0 + RowCells(f, ny, n + 1)
  {
    assert RowCells(f, ny, n + 1) == RowCells(f, ny, n) + [f(n, ny)];
  }

  lemma TakeSnoc(a: seq<u16>, k: nat)
    requires k < |a|
    ensures a[..k + 1] == a[..k] + [a[k]]
  {
  }

  /** One block written after the grid's calls so far, with its entry recorded: the grid
      and the entries have grown by that block. */
  lemma GridEntryStep(t0: seq<Call>, outs: seq<BlockOut>, o: BlockOut, noEntry: u16,
                      before: seq<Call>, after: seq<Call>, a: seq<u16>)
    requires before == t0 + Grid(outs) && after == before + ([SpriteHeader(|outs|)] + Out(o))
    requires |outs| < |a| && a[..|outs|] == Entries(outs, Size(t0), noEntry)
    requires a[|outs|] == EntryOf(o, Size(before), noEntry)
    ensures after == t0 + Grid(outs + [o])
    ensures a[..|outs| + 1] == Entries(outs + [o], Size(t0), noEntry)
  {
    GridStepCalls(t0, outs, o, before, after);
    var s := Size(t0) + DataSize(outs);
    assert Size(before) == s by {
      SizeAppend(t0, Grid(outs));
      DataSizeIsSize(outs);
    }
    EntriesStep(outs, o, Size(t0), noEntry, s, a);
  }

  lemma GridStepCalls(t0: seq<Call>, outs: seq<BlockOut>, o: BlockOut, before: seq<Call>, after: seq<Call>)
    requires before == t0 + Grid(outs) && after == before + ([SpriteHeader(|outs|)] + Out(o))
    ensures after == t0 + Grid(outs + [o])
  {
    GridSnoc(outs, o);
    CallsAssoc(t0, Grid(outs), [SpriteHeader(|outs|)] + Out(o));
  }

  lemma CallsAssoc(a: seq<Call>, b: seq<Call>, c: seq<Call>)
    ensures (a + b) + c == a + (b + c)
  {
  }

  lemma EntriesStep(outs: seq<BlockOut>, o: BlockOut, s0: nat, noEntry: u16, s: int, a: seq<u16>)
    requires s == s0 + DataSize(outs)
    requires |outs| < |a| && a[..|outs|] == Entries(outs, s0, noEntry)
    requires a[|outs|] == EntryOf(o, s, noEntry)
    ensures a[..|outs| + 1] == Entries(outs + [o], s0, noEntry)
  {
    EntriesSnoc(outs, o, s0, noEntry);
    TakeSnoc(a, |outs|);
    assert a[..|outs|] + [a[|outs|]] == Entries(outs, s0, noEntry) + [EntryOf(o, s0 + DataSize(outs), noEntry)];
  }

}
