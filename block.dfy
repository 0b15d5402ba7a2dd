// One block of the sprite grid: where its pixels are in the image, the crop box of its
// non-transparent pixels, and the per-line horizontal range of the line-crop schemes.
module Block {
  import opened Types
  import opened Params
  import opened Color
  import opened ColorMap

  /** The decoded image: `width` x `height` 32-bit pixels, row-major. */
  datatype Image = Image(width: int, height: int, bits: seq<u32>)

  /** Everything an encoding run depends on besides the block position: the parameters
      (already normalised to the image), the image, the 24-bit transparent colour, the
      16-entry palette for 4-bit indices, the value of the uninitialised accumulator of
      the RLE0 4-bit packing, the value the index table gets for a skipped block, and the
      numeric code of the scheme that the header table stores. */
  datatype Ctx = Ctx(p: ExportParameters, img: Image, trans: u32, pal: seq<u32>,
                     garbage: u8, noEntry: u16, compCode: u8)

  /** The geometry the encoder walks: non-negative sizes and counts. Positions and gaps
      may be negative; a pixel address that falls outside the buffer reads as 0. */
  predicate Geometry(p: ExportParameters)
  {
    p.sizeX >= 0 && p.sizeY >= 0 && p.numX >= 0 && p.numY >= 0
  }

  /** The buffer index of pixel (i, j) of block (nx, ny). */
  function Addr(c: Ctx, nx: int, ny: int, i: int, j: int): int
  {
    var p := c.p;
    p.posX + i + nx * (p.sizeX + p.gapX) + (p.posY + j + ny * (p.sizeY + p.gapY)) * c.img.width
  }

  /** At 1 bit per colour, pixel (i, j) of block (nx, ny) is the first bit of a buffer byte. */
  predicate ByteAligned(c: Ctx, nx: int, ny: int, i: int, j: int)
  {
    Addr(c, nx, ny, i, j) % 8 == 0
  }

  /** With non-negative positions and gaps every pixel address is non-negative. */
  lemma AddrNonNegative(c: Ctx, nx: int, ny: int, i: int, j: int)
    requires Geometry(c.p) && c.img.width >= 0
    requires c.p.posX >= 0 && c.p.posY >= 0 && c.p.gapX >= 0 && c.p.gapY >= 0
    requires nx >= 0 && ny >= 0 && i >= 0 && j >= 0
    ensures Addr(c, nx, ny, i, j) >= 0
  {
    var p := c.p;
    assert nx * (p.sizeX + p.gapX) >= 0;
    assert p.posY + j + ny * (p.sizeY + p.gapY) >= 0;
  }

  /** The 24-bit colour of pixel (i, j) of block (nx, ny); 0 outside the buffer. */
  function Rgb(c: Ctx, nx: int, ny: int, i: int, j: int): (rgb: u32)
    ensures rgb < 0x100_0000
  {
    var a := Addr(c, nx, ny, i, j);
    if 0 <= a < |c.img.bits| then c.img.bits[a] % 0x100_0000 else 0
  }

  predicate Opaque(c: Ctx, nx: int, ny: int, i: int, j: int)
  {
    Rgb(c, nx, ny, i, j) != c.trans
  }

  /** At 4 bits per colour the palette has at most 16 entries and palCount of them
      after entry 0. */
  predicate PalOk(c: Ctx)
  {
    c.p.bpc == 4 ==> c.p.palCount < |c.pal| <= 16
  }

  /** The 4-bit index of a colour: 0 for the transparent colour when transparency is on,
      otherwise the nearest palette entry among 1..palCount. */
  function C4(c: Ctx, rgb: u32): (k: u8)
    requires c.p.bpc == 4 && PalOk(c)
    ensures k < 16
  {
    if c.p.useTrans && rgb == c.trans then 0 else NearestColor(rgb, c.pal, c.p.palCount)
  }

  // ------------------------------------------------------------------------------------
  // The pixels of a block in scan order (rows top to bottom, each row left to right).

  function Row(c: Ctx, nx: int, ny: int, j: int): (s: seq<u32>)
    ensures |s| == if c.p.sizeX < 0 then 0 else c.p.sizeX
  {
    seq(if c.p.sizeX < 0 then 0 else c.p.sizeX, i => Rgb(c, nx, ny, i, j))
  }

  function ScanRows(c: Ctx, nx: int, ny: int, j: nat): seq<u32>
  {
    if j == 0 then [] else ScanRows(c, nx, ny, j - 1) + Row(c, nx, ny, j - 1)
  }

  // ------------------------------------------------------------------------------------
  // The crop box.

  /** The bounds of a block and its number of non-transparent pixels. */
  datatype Box = Box(minX: int, maxX: int, minY: int, maxY: int, count: int)

  /** Crop schemes start from an empty box (min at the size, max at 0); the others keep
      the whole block. */
  function BoxInit(c: Ctx): Box
  {
    if c.p.comp.IsCrop() then Box(c.p.sizeX, 0, c.p.sizeY, 0, 0)
    else Box(0, c.p.sizeX - 1, 0, c.p.sizeY - 1, 0)
  }

  function BoxStep(c: Ctx, b: Box, i: int, j: int, rgb: int): Box
  {
    if rgb != c.trans then
      var b' := if c.p.comp.IsCrop() then
        Box(if i < b.minX then i else b.minX, if i > b.maxX then i else b.maxX,
            if j < b.minY then j else b.minY, if j > b.maxY then j else b.maxY, b.count)
      else b;
      b'.(count := b'.count + 1)
    else b
  }

  /** The box after the pixels of rows 0..j-1 and pixels 0..i-1 of row j. */
  function BoxAfter(c: Ctx, nx: int, ny: int, j: nat, i: nat): Box
    requires i <= c.p.sizeX
    decreases j, i
  {
    if i == 0 then
      if j == 0 then BoxInit(c) else BoxAfter(c, nx, ny, j - 1, c.p.sizeX)
    else
      BoxStep(c, BoxAfter(c, nx, ny, j, i - 1), i - 1, j, Rgb(c, nx, ny, i - 1, j))
  }

  /** Pixel (a, r) comes before position (i, j) of the scan. */
  predicate Seen(c: Ctx, j: int, i: int, a: int, r: int)
  {
    0 <= a < c.p.sizeX && 0 <= r && (r < j || (r == j && a < i))
  }

  /** Some scanned opaque pixel lies in column x, or in row y. */
  ghost predicate ReachedX(c: Ctx, nx: int, ny: int, j: int, i: int, x: int)
  {
    exists r :: Seen(c, j, i, x, r) && Opaque(c, nx, ny, x, r)
  }

  ghost predicate ReachedY(c: Ctx, nx: int, ny: int, j: int, i: int, y: int)
  {
    exists a :: Seen(c, j, i, a, y) && Opaque(c, nx, ny, a, y)
  }

  /** No pixel counted exactly when none of the scanned pixels is opaque; an empty count
      leaves the initial box, and schemes without crop never move the bounds. */
  ghost predicate CountFacts(c: Ctx, nx: int, ny: int, j: int, i: int, b: Box)
  {
    && b.count >= 0
    && (b.count == 0 <==> forall a, r :: Seen(c, j, i, a, r) ==> !Opaque(c, nx, ny, a, r))
    && (b.count == 0 ==> b == BoxInit(c))
    && (!c.p.comp.IsCrop() ==> b.(count := 0) == BoxInit(c))
  }

  /** For a crop scheme every scanned opaque pixel is inside the box. */
  ghost predicate ContainFacts(c: Ctx, nx: int, ny: int, j: int, i: int, b: Box)
  {
    c.p.comp.IsCrop() ==>
      forall a, r :: Seen(c, j, i, a, r) && Opaque(c, nx, ny, a, r) ==>
        b.minX <= a <= b.maxX && b.minY <= r <= b.maxY
  }

  /** For a crop scheme each bound of a non-empty box is reached by a scanned opaque pixel. */
  ghost predicate ReachFacts(c: Ctx, nx: int, ny: int, j: int, i: int, b: Box)
  {
    c.p.comp.IsCrop() && b.count > 0 ==>
      && ReachedX(c, nx, ny, j, i, b.minX) && ReachedX(c, nx, ny, j, i, b.maxX)
      && ReachedY(c, nx, ny, j, i, b.minY) && ReachedY(c, nx, ny, j, i, b.maxY)
  }

  ghost predicate BoxFacts(c: Ctx, nx: int, ny: int, j: int, i: int, b: Box)
  {
    CountFacts(c, nx, ny, j, i, b) && ContainFacts(c, nx, ny, j, i, b) && ReachFacts(c, nx, ny, j, i, b)
  }

  lemma SeenStep(c: Ctx, j: int, i: int)
    requires 0 <= i < c.p.sizeX && j >= 0
    ensures forall a, r :: Seen(c, j, i + 1, a, r) <==> Seen(c, j, i, a, r) || (a == i && r == j)
  {
  }

  lemma ReachedStep(c: Ctx, nx: int, ny: int, j: int, i: int)
    requires 0 <= i < c.p.sizeX && j >= 0
    ensures forall x :: ReachedX(c, nx, ny, j, i, x) ==> ReachedX(c, nx, ny, j, i + 1, x)
    ensures forall y :: ReachedY(c, nx, ny, j, i, y) ==> ReachedY(c, nx, ny, j, i + 1, y)
    ensures Opaque(c, nx, ny, i, j) ==> ReachedX(c, nx, ny, j, i + 1, i) && ReachedY(c, nx, ny, j, i + 1, j)
  {
    SeenStep(c, j, i);
    if Opaque(c, nx, ny, i, j) {
      assert Seen(c, j, i + 1, i, j);
    }
  }

  lemma CountStep(c: Ctx, nx: int, ny: int, j: nat, i: nat)
    requires i < c.p.sizeX && j < c.p.sizeY
    requires CountFacts(c, nx, ny, j, i, BoxAfter(c, nx, ny, j, i))
    ensures CountFacts(c, nx, ny, j, i + 1, BoxAfter(c, nx, ny, j, i + 1))
  {
    var b := BoxAfter(c, nx, ny, j, i);
    var b' := BoxAfter(c, nx, ny, j, i + 1);
    assert b' == BoxStep(c, b, i, j, Rgb(c, nx, ny, i, j));
    SeenStep(c, j, i);
    if Opaque(c, nx, ny, i, j) {
      assert b'.count == b.count + 1;
      assert Seen(c, j, i + 1, i, j);
    } else {
      assert b' == b;
    }
  }

  lemma ContainStep(c: Ctx, nx: int, ny: int, j: nat, i: nat)
    requires i < c.p.sizeX && j < c.p.sizeY
    requires ContainFacts(c, nx, ny, j, i, BoxAfter(c, nx, ny, j, i))
    ensures ContainFacts(c, nx, ny, j, i + 1, BoxAfter(c, nx, ny, j, i + 1))
  {
    SeenStep(c, j, i);
  }

  lemma ReachStep(c: Ctx, nx: int, ny: int, j: nat, i: nat)
    requires i < c.p.sizeX && j < c.p.sizeY
    requires CountFacts(c, nx, ny, j, i, BoxAfter(c, nx, ny, j, i))
    requires ReachFacts(c, nx, ny, j, i, BoxAfter(c, nx, ny, j, i))
    ensures ReachFacts(c, nx, ny, j, i + 1, BoxAfter(c, nx, ny, j, i + 1))
  {
    var b := BoxAfter(c, nx, ny, j, i);
    var b' := BoxAfter(c, nx, ny, j, i + 1);
    assert b' == BoxStep(c, b, i, j, Rgb(c, nx, ny, i, j));
    ReachedStep(c, nx, ny, j, i);
    if c.p.comp.IsCrop() && b'.count > 0 {
      if !Opaque(c, nx, ny, i, j) {
        assert b' == b;
      } else if b.count == 0 {
        assert b == BoxInit(c);
        assert b'.minX == i && b'.maxX == i && b'.minY == j && b'.maxY == j;
      } else {
        assert b'.minX == i || b'.minX == b.minX;
        assert b'.maxX == i || b'.maxX == b.maxX;
        assert b'.minY == j || b'.minY == b.minY;
        assert b'.maxY == j || b'.maxY == b.maxY;
      }
    }
  }

  lemma BoxStepFacts(c: Ctx, nx: int, ny: int, j: nat, i: nat)
    requires i < c.p.sizeX && j < c.p.sizeY
    requires BoxFacts(c, nx, ny, j, i, BoxAfter(c, nx, ny, j, i))
    ensures BoxFacts(c, nx, ny, j, i + 1, BoxAfter(c, nx, ny, j, i + 1))
  {
    CountStep(c, nx, ny, j, i);
    ContainStep(c, nx, ny, j, i);
    ReachStep(c, nx, ny, j, i);
  }

  lemma SeenNextRow(c: Ctx, j: nat)
    requires c.p.sizeX >= 0
    ensures forall a, r :: Seen(c, j + 1, 0, a, r) <==> Seen(c, j, c.p.sizeX, a, r)
  {
  }

  lemma {:induction false} BoxAfterFacts(c: Ctx, nx: int, ny: int, j: nat, i: nat)
    requires i <= c.p.sizeX
    requires j < c.p.sizeY || (j == c.p.sizeY && i == 0)
    ensures BoxFacts(c, nx, ny, j, i, BoxAfter(c, nx, ny, j, i))
    decreases j, i
  {
    if i == 0 {
      if j == 0 {
        assert forall a, r :: !Seen(c, 0, 0, a, r);
      } else {
        BoxAfterFacts(c, nx, ny, j - 1, c.p.sizeX);
        SeenNextRow(c, j - 1);
        assert forall x :: ReachedX(c, nx, ny, j, 0, x) <==> ReachedX(c, nx, ny, j - 1, c.p.sizeX, x);
        assert forall y :: ReachedY(c, nx, ny, j, 0, y) <==> ReachedY(c, nx, ny, j - 1, c.p.sizeX, y);
      }
    } else {
      BoxAfterFacts(c, nx, ny, j, i - 1);
      BoxStepFacts(c, nx, ny, j, i - 1);
    }
  }

  /** The box of a whole block. */
  function BlockBox(c: Ctx, nx: int, ny: int): Box
    requires c.p.sizeX >= 0 && c.p.sizeY >= 0
  {
    BoxAfter(c, nx, ny, c.p.sizeY, 0)
  }

  predicate InBlock(c: Ctx, a: int, r: int)
  {
    0 <= a < c.p.sizeX && 0 <= r < c.p.sizeY
  }

  /** With a crop scheme the box is the tight box of the opaque pixels: it holds all of
      them and each of its four bounds is the coordinate of one of them. The block has
      no opaque pixel exactly when the count is 0, and then the box is still the
      initial one. */
  lemma BlockBoxTight(c: Ctx, nx: int, ny: int)
    requires c.p.sizeX >= 0 && c.p.sizeY >= 0
    requires c.p.comp.IsCrop()
    ensures var b := BlockBox(c, nx, ny);
      && (b.count == 0 <==> forall a, r :: InBlock(c, a, r) ==> !Opaque(c, nx, ny, a, r))
      && (b.count == 0 ==> b == Box(c.p.sizeX, 0, c.p.sizeY, 0, 0))
      && (forall a, r :: InBlock(c, a, r) && Opaque(c, nx, ny, a, r) ==>
            b.minX <= a <= b.maxX && b.minY <= r <= b.maxY)
      && (b.count > 0 ==>
            && (exists r :: InBlock(c, b.minX, r) && Opaque(c, nx, ny, b.minX, r))
            && (exists r :: InBlock(c, b.maxX, r) && Opaque(c, nx, ny, b.maxX, r))
            && (exists a :: InBlock(c, a, b.minY) && Opaque(c, nx, ny, a, b.minY))
            && (exists a :: InBlock(c, a, b.maxY) && Opaque(c, nx, ny, a, b.maxY)))
  {
    BoxAfterFacts(c, nx, ny, c.p.sizeY, 0);
    assert forall a, r :: Seen(c, c.p.sizeY, 0, a, r) <==> InBlock(c, a, r);
    var b := BlockBox(c, nx, ny);
    if b.count > 0 {
      assert ReachedX(c, nx, ny, c.p.sizeY, 0, b.minX);
      assert ReachedX(c, nx, ny, c.p.sizeY, 0, b.maxX);
      assert ReachedY(c, nx, ny, c.p.sizeY, 0, b.minY);
      assert ReachedY(c, nx, ny, c.p.sizeY, 0, b.maxY);
    }
  }

  /** Without a crop scheme the box stays the whole block; only the count moves. */
  lemma BlockBoxWhole(c: Ctx, nx: int, ny: int)
    requires c.p.sizeX >= 0 && c.p.sizeY >= 0
    requires !c.p.comp.IsCrop()
    ensures var b := BlockBox(c, nx, ny);
      b.minX == 0 && b.maxX == c.p.sizeX - 1 && b.minY == 0 && b.maxY == c.p.sizeY - 1
    ensures BlockBox(c, nx, ny).count == 0 <==> forall a, r :: InBlock(c, a, r) ==> !Opaque(c, nx, ny, a, r)
  {
    BoxAfterFacts(c, nx, ny, c.p.sizeY, 0);
    assert forall a, r :: Seen(c, c.p.sizeY, 0, a, r) <==> InBlock(c, a, r);
  }

  // ------------------------------------------------------------------------------------
  // The horizontal range of one line, for the line-crop schemes.

  /** (minX, maxX) of the opaque pixels among pixels 0..i-1 of row j, starting from
      (sizeX, 0). */
  function LineAfter(c: Ctx, nx: int, ny: int, j: int, i: nat): (int, int)
    requires i <= c.p.sizeX
  {
    if i == 0 then (c.p.sizeX, 0)
    else
      var m := LineAfter(c, nx, ny, j, i - 1);
      if Opaque(c, nx, ny, i - 1, j) then
        (if i - 1 < m.0 then i - 1 else m.0, if i - 1 > m.1 then i - 1 else m.1)
      else m
  }

  ghost predicate LineFacts(c: Ctx, nx: int, ny: int, j: int, i: int, m: (int, int))
  {
    && (forall a :: 0 <= a < i && Opaque(c, nx, ny, a, j) ==> m.0 <= a <= m.1)
    && ((forall a :: 0 <= a < i ==> !Opaque(c, nx, ny, a, j)) <==> m == (c.p.sizeX, 0))
    && (m != (c.p.sizeX, 0) ==>
          0 <= m.0 <= m.1 < i && Opaque(c, nx, ny, m.0, j) && Opaque(c, nx, ny, m.1, j))
  }

  lemma {:induction false} LineAfterFacts(c: Ctx, nx: int, ny: int, j: int, i: nat)
    requires i <= c.p.sizeX
    ensures LineFacts(c, nx, ny, j, i, LineAfter(c, nx, ny, j, i))
  {
    if i > 0 {
      LineAfterFacts(c, nx, ny, j, i - 1);
      var m := LineAfter(c, nx, ny, j, i - 1);
      if Opaque(c, nx, ny, i - 1, j) {
        assert LineAfter(c, nx, ny, j, i).0 == i - 1 || LineAfter(c, nx, ny, j, i).0 == m.0;
      }
    }
  }

  /** The range of a whole line is the tight range of its opaque pixels, or (sizeX, 0)
      when the line has none. */
  lemma LineBoundsTight(c: Ctx, nx: int, ny: int, j: int)
    requires c.p.sizeX >= 0
    ensures var m := LineAfter(c, nx, ny, j, c.p.sizeX);
      && (forall a :: 0 <= a < c.p.sizeX && Opaque(c, nx, ny, a, j) ==> m.0 <= a <= m.1)
      && ((exists a :: 0 <= a < c.p.sizeX && Opaque(c, nx, ny, a, j)) ==>
            0 <= m.0 <= m.1 < c.p.sizeX && Opaque(c, nx, ny, m.0, j) && Opaque(c, nx, ny, m.1, j))
      && ((forall a :: 0 <= a < c.p.sizeX ==> !Opaque(c, nx, ny, a, j)) ==> m == (c.p.sizeX, 0))
  {
    LineAfterFacts(c, nx, ny, j, c.p.sizeX);
  }
}
