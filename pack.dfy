// The pixel data of one line of a block: one GRB8 byte per pixel at 8 bits per colour,
// two palette indices per byte at 4 bits, eight pixels per byte at 1 bit. Only the
// pixels whose column is within [lo, hi] are written.
module Pack {
  import opened Types
  import opened Params
  import opened ColorMap
  import opened Exporter
  import opened ExportCalls
  import opened Block

  /** The packing state: the calls written so far and the byte being filled. */
  datatype Acc = Acc(calls: seq<Call>, byte: u8)

  /** 1 << (7 - bit): the mask of a pixel in a 1-bit byte, leftmost pixel in bit 7. */
  function BitMask(bit: int): (m: u8)
    requires 0 <= bit < 8
    ensures m == Pow2(7 - bit)
  {
    assert Pow2(0) == 1 && Pow2(1) == 2 && Pow2(2) == 4 && Pow2(3) == 8;
    assert Pow2(4) == 16 && Pow2(5) == 32 && Pow2(6) == 64 && Pow2(7) == 128;
    [0x80, 0x40, 0x20, 0x10, 0x08, 0x04, 0x02, 0x01][bit]
  }

  /** Whether a pixel is set at 1 bit per colour: any non-transparent colour with
      transparency on, any non-black colour without. */
  predicate Lit(c: Ctx, rgb: u32)
  {
    if c.p.useTrans then rgb != c.trans else rgb != 0
  }

  /** What a pixel contributes to its line: its GRB8 byte at 8 bits per colour, its
      palette index at 4, 1 when it is set at 1. */
  function PixelValue(c: Ctx, rgb: u32): (v: u8)
    requires PalOk(c)
    ensures c.p.bpc == 4 ==> v < 16
    ensures c.p.bpc == 8 ==> v == GetGBR8(rgb, c.trans)
    ensures c.p.bpc == 4 ==> v == C4(c, rgb)
    ensures c.p.bpc != 8 && c.p.bpc != 4 ==> (v == 1 <==> Lit(c, rgb)) && v < 2
  {
    if c.p.bpc == 8 then GetGBR8(rgb, c.trans)
    else if c.p.bpc == 4 then C4(c, rgb)
    else if Lit(c, rgb) then 1 else 0
  }

  /** The values of the pixels of row j of block (nx, ny), column by column. */
  function RowValues(c: Ctx, nx: int, ny: int, j: int): (s: seq<u8>)
    requires PalOk(c)
    ensures |s| == if c.p.sizeX < 0 then 0 else c.p.sizeX
    ensures forall i :: 0 <= i < |s| ==> s[i] == PixelValue(c, Rgb(c, nx, ny, i, j))
    ensures ValuesOk(c.p.bpc, s)
  {
    seq(if c.p.sizeX < 0 then 0 else c.p.sizeX, i => PixelValue(c, Rgb(c, nx, ny, i, j)))
  }

  /** The columns of a row are consecutive in the buffer. */
  lemma AddrColumn(c: Ctx, nx: int, ny: int, i: int, j: int)
    ensures Addr(c, nx, ny, i, j) == Addr(c, nx, ny, 0, j) + i
  {
  }

  /** Values fit the depth: palette indices are 4-bit. */
  ghost predicate ValuesOk(bpc: int, vals: seq<u8>)
  {
    bpc == 4 ==> forall k :: 0 <= k < |vals| ==> vals[k] < 16
  }

  /** At 8 bits per colour every column writes its byte. */
  function Step8(acc: Acc, v: u8): Acc
  {
    Acc(acc.calls + [ByteData(v)], acc.byte)
  }

  /** At 4 bits an even column ORs its index into the high nibble and an odd one into the
      low nibble; the byte goes out after an odd column or at the last column. */
  function Step4(acc: Acc, c4: u8, i: int, last: bool): Acc
    requires c4 < 16
  {
    var b := if i % 2 == 1 then Or8(acc.byte, c4) else Or8(acc.byte, c4 * 16);
    if i % 2 == 1 || last then Acc(acc.calls + [ByteData(b)], 0) else Acc(acc.calls, b)
  }

  /** At 1 bit a set pixel ORs in the bit of its buffer index a modulo 8; the byte goes
      out after position 7 or at the last column. */
  function Step1(acc: Acc, lit: bool, a: int, last: bool): Acc
  {
    var b := if lit then Or8(acc.byte, BitMask(a % 8)) else acc.byte;
    if a % 8 == 7 || last then Acc(acc.calls + [BitsData(b)], 0) else Acc(acc.calls, b)
  }

  /** A line at 8 bits per colour after columns 0..i-1: only columns in [lo, hi] write. */
  function Fold8(vals: seq<u8>, lo: int, hi: int, i: nat): Acc
    requires i <= |vals|
  {
    if i == 0 then Acc([], 0)
    else
      var acc := Fold8(vals, lo, hi, i - 1);
      if lo <= i - 1 <= hi then Step8(acc, vals[i - 1]) else acc
  }

  /** A line at 4 bits per colour after columns 0..i-1. */
  function Fold4(vals: seq<u8>, lo: int, hi: int, i: nat): Acc
    requires ValuesOk(4, vals) && i <= |vals|
  {
    if i == 0 then Acc([], 0)
    else
      var acc := Fold4(vals, lo, hi, i - 1);
      if lo <= i - 1 <= hi then Step4(acc, vals[i - 1], i - 1, i - 1 == hi) else acc
  }

  /** A line at 1 bit per colour after columns 0..i-1; column 0 is at buffer index base. */
  function Fold1(vals: seq<u8>, base: int, lo: int, hi: int, i: nat): Acc
    requires i <= |vals|
  {
    if i == 0 then Acc([], 0)
    else
      var acc := Fold1(vals, base, lo, hi, i - 1);
      if lo <= i - 1 <= hi then Step1(acc, vals[i - 1] != 0, base + i - 1, i - 1 == hi) else acc
  }

  /** The line after columns 0..i-1 at any depth; other depths write nothing. */
  function LineData(bpc: int, vals: seq<u8>, base: int, lo: int, hi: int, i: nat): Acc
    requires ValuesOk(bpc, vals) && i <= |vals|
  {
    if bpc == 8 then Fold8(vals, lo, hi, i)
    else if bpc == 4 then Fold4(vals, lo, hi, i)
    else if bpc == 1 then Fold1(vals, base, lo, hi, i)
    else Acc([], 0)
  }

  /** The data of row j of block (nx, ny) between columns lo and hi. */
  function Line(c: Ctx, nx: int, ny: int, j: int, lo: int, hi: int): Acc
    requires PalOk(c)
  {
    var vals := RowValues(c, nx, ny, j);
    LineData(c.p.bpc, vals, Addr(c, nx, ny, 0, j), lo, hi, |vals|)
  }

  /** Columns before lo and after hi write nothing. */
  lemma {:induction false} LineDataOutside(bpc: int, vals: seq<u8>, base: int, lo: int, hi: int, i: nat)
    requires ValuesOk(bpc, vals) && i <= |vals|
    ensures 0 <= lo && i <= lo ==> LineData(bpc, vals, base, lo, hi, i) == Acc([], 0)
    ensures 0 <= hi + 1 <= i ==> LineData(bpc, vals, base, lo, hi, i) == LineData(bpc, vals, base, lo, hi, hi + 1)
  {
    if i > 0 {
      LineDataOutside(bpc, vals, base, lo, hi, i - 1);
    }
  }

  /** The calls that write the bytes bs one by one. */
  function DataCalls(bs: seq<int>): (t: seq<Call>)
    ensures |t| == |bs|
  {
    seq(|bs|, k requires 0 <= k < |bs| => ByteData(Wrap8(bs[k])))
  }

  lemma DataCallsSnoc(bs: seq<int>, b: int)
    ensures DataCalls(bs + [b]) == DataCalls(bs) + [ByteData(Wrap8(b))]
  {
  }

  /** Writing bytes one by one outputs exactly those bytes. */
  lemma {:induction false} DataCallsBytes(bs: seq<int>)
    requires forall k :: 0 <= k < |bs| ==> 0 <= bs[k] < 0x100
    ensures Bytes(DataCalls(bs)) == bs
  {
    if bs != [] {
      var init := bs[..|bs| - 1];
      var b := bs[|bs| - 1];
      DataCallsBytes(init);
      DataCallsBytesSnoc(init, b);
      assert bs == init + [b];
    }
  }

  lemma DataCallsBytesSnoc(init: seq<int>, b: int)
    requires Bytes(DataCalls(init)) == init && 0 <= b < 0x100
    ensures Bytes(DataCalls(init + [b])) == init + [b]
  {
    DataCallsSnoc(init, b);
    BytesSnoc(DataCalls(init), ByteData(Wrap8(b)));
  }

  // ------------------------------------------------------------------------------------
  // 8 bits per colour.

  lemma SliceSnoc(s: seq<u8>, lo: int, i: int)
    requires 0 <= lo < i <= |s|
    ensures s[lo..i] == s[lo..i - 1] + [s[i - 1]]
  {
  }

  lemma {:induction false} Fold8Calls(vals: seq<u8>, lo: int, hi: int, i: nat)
    requires 0 <= lo <= i <= hi + 1 && i <= |vals|
    ensures Fold8(vals, lo, hi, i).calls == DataCalls(vals[lo..i])
  {
    if i == lo {
      LineDataOutside(8, vals, 0, lo, hi, i);
    } else {
      Fold8Calls(vals, lo, hi, i - 1);
      var acc := Fold8(vals, lo, hi, i - 1);
      var d := vals[i - 1];
      assert Fold8(vals, lo, hi, i) == Acc(acc.calls + [ByteData(d)], acc.byte);
      SliceSnoc(vals, lo, i);
      DataCallsSnoc(vals[lo..i - 1], d);
    }
  }

  /** At 8 bits per colour a line writes one GRB8 byte per column of [lo, hi], in order. */
  lemma LineCalls8(c: Ctx, nx: int, ny: int, j: int, lo: int, hi: int)
    requires c.p.bpc == 8 && 0 <= lo <= hi + 1 <= c.p.sizeX
    ensures Line(c, nx, ny, j, lo, hi).calls == DataCalls(RowValues(c, nx, ny, j)[lo..hi + 1])
  {
    var vals := RowValues(c, nx, ny, j);
    assert Line(c, nx, ny, j, lo, hi) == Fold8(vals, lo, hi, |vals|);
    LineDataOutside(8, vals, Addr(c, nx, ny, 0, j), lo, hi, |vals|);
    Fold8Calls(vals, lo, hi, hi + 1);
  }

  // ------------------------------------------------------------------------------------
  // 4 bits per colour.

  /** The reference packing of 4-bit values: byte k holds values 2k (high nibble) and
      2k + 1 (low nibble); an odd last value fills the high nibble alone. */
  function Nibbles(s: seq<int>): (r: seq<int>)
    ensures |r| == (|s| + 1) / 2
  {
    seq((|s| + 1) / 2, k requires 0 <= k < (|s| + 1) / 2 =>
      if 2 * k + 1 < |s| then s[2 * k] * 16 + s[2 * k + 1] else s[2 * k] * 16)
  }

  lemma NibblesSnoc(s: seq<int>, x: int)
    requires |s| % 2 == 0
    ensures Nibbles(s + [x]) == Nibbles(s) + [x * 16]
  {
    var l := Nibbles(s + [x]);
    var r := Nibbles(s) + [x * 16];
    assert |l| == |r|;
    forall k | 0 <= k < |l|
      ensures l[k] == r[k]
    {
      if k < |l| - 1 {
        assert 2 * k + 1 < |s|;
      }
    }
  }

  lemma NibblesSnocPair(s: seq<int>, x: int, y: int)
    requires |s| % 2 == 0
    ensures Nibbles(s + [x, y]) == Nibbles(s) + [x * 16 + y]
  {
    var l := Nibbles(s + [x, y]);
    var r := Nibbles(s) + [x * 16 + y];
    assert |l| == |r|;
    forall k | 0 <= k < |l|
      ensures l[k] == r[k]
    {
      if k < |l| - 1 {
        assert 2 * k + 1 < |s|;
      }
    }
  }

  /** An even column starts a byte with its index in the high nibble. */
  lemma Step4Even(acc: Acc, x: u8, i: int, last: bool)
    requires x < 16 && i % 2 == 0 && acc.byte == 0
    ensures Step4(acc, x, i, last) == if last then Acc(acc.calls + [ByteData(x * 16)], 0) else Acc(acc.calls, x * 16)
  {
    assert Or8(0, x * 16) == x * 16;
  }

  /** An odd column completes the byte with its index in the low nibble. */
  lemma Step4Odd(acc: Acc, x: u8, i: int, last: bool, y: int)
    requires x < 16 && i % 2 == 1 && 0 <= y < 16 && acc.byte == y * 16
    ensures Step4(acc, x, i, last) == Acc(acc.calls + [ByteData(y * 16 + x)], 0)
  {
    NibblePair(y, x as int);
  }

  /** The reference packing of 4-bit values gives bytes. */
  lemma NibblesBytes(s: seq<int>)
    requires forall k :: 0 <= k < |s| ==> 0 <= s[k] < 16
    ensures forall k :: 0 <= k < |Nibbles(s)| ==> 0 <= Nibbles(s)[k] < 0x100
  {
  }

  /** The state of a 4-bit line whose values so far are s: after an even number of
      columns the complete bytes are out and the byte is clear; after an odd number the
      last index waits in the high nibble, unless the line has ended. */
  ghost predicate Packed4(acc: Acc, s: seq<int>, atEnd: bool)
  {
    if |s| % 2 == 0 then acc.calls == DataCalls(Nibbles(s)) && acc.byte == 0
    else if atEnd then acc.calls == DataCalls(Nibbles(s))
    else acc.calls == DataCalls(Nibbles(s[..|s| - 1])) && acc.byte == s[|s| - 1] * 16
  }

  /** An even column keeps the packing state. */
  lemma Packed4Even(acc: Acc, s0: seq<int>, x: u8, last: bool, next: Acc)
    requires x < 16 && |s0| % 2 == 0
    requires Packed4(acc, s0, false)
    requires next == if last then Acc(acc.calls + [ByteData(x * 16)], 0) else Acc(acc.calls, x * 16)
    ensures Packed4(next, s0 + [x as int], last)
  {
    var s := s0 + [x as int];
    if last {
      NibblesSnoc(s0, x as int);
      DataCallsSnoc(Nibbles(s0), x * 16);
    } else {
      assert s[..|s| - 1] == s0;
    }
  }

  /** An odd column keeps the packing state. */
  lemma Packed4Odd(acc: Acc, s0: seq<int>, x: u8, last: bool, next: Acc)
    requires x < 16 && |s0| % 2 == 1
    requires 0 <= s0[|s0| - 1] < 16
    requires Packed4(acc, s0, false)
    requires next == Acc(acc.calls + [ByteData(s0[|s0| - 1] * 16 + x)], 0)
    ensures Packed4(next, s0 + [x as int], last)
  {
    var s := s0 + [x as int];
    var y := s0[|s0| - 1];
    var init := s0[..|s0| - 1];
    assert s0 == init + [y];
    assert s == init + [y, x as int];
    NibblesSnocPair(init, y, x as int);
    DataCallsSnoc(Nibbles(init), y * 16 + x);
  }

  /** The column before i is in [lo, hi]: it is packed by Step4. */
  lemma Fold4Last(vals: seq<u8>, lo: int, hi: int, k: nat)
    requires ValuesOk(4, vals) && 0 <= lo <= k <= hi && k < |vals|
    ensures vals[k] < 16
    ensures Fold4(vals, lo, hi, k + 1) == Step4(Fold4(vals, lo, hi, k), vals[k], k, k == hi)
    ensures vals[lo..k + 1] == vals[lo..k] + [vals[k]]
  {
  }

  lemma EvenShift(a: int, lo: int)
    requires lo % 2 == 0
    ensures (a - lo) % 2 == a % 2
  {
    var h := lo / 2;
    assert lo == 2 * h;
    assert a - lo == a + (-h) * 2;
  }

  /** Packing one more index, at an even column after an even number of indices or an
      odd column after an odd number, keeps the packing state. */
  lemma Packed4Step(acc: Acc, s0: seq<int>, x: u8, i: int, last: bool)
    requires x < 16 && i % 2 == |s0| % 2
    requires |s0| > 0 ==> 0 <= s0[|s0| - 1] < 16
    requires Packed4(acc, s0, false)
    ensures Packed4(Step4(acc, x, i, last), s0 + [x as int], last)
  {
    var next := Step4(acc, x, i, last);
    if i % 2 == 0 {
      Step4Even(acc, x, i, last);
      Packed4Even(acc, s0, x, last, next);
    } else {
      Step4Odd(acc, x, i, last, s0[|s0| - 1]);
      Packed4Odd(acc, s0, x, last, next);
    }
  }

  /** The line after column i - 1 is in the packing state of the values of lo..i-1. */
  lemma {:induction false} Fold4Packed(vals: seq<u8>, lo: int, hi: int, i: nat)
    requires ValuesOk(4, vals)
    requires 0 <= lo <= i <= hi + 1 && i <= |vals| && lo % 2 == 0
    ensures Packed4(Fold4(vals, lo, hi, i), vals[lo..i], i == hi + 1)
  {
    if i == lo {
      LineDataOutside(4, vals, 0, lo, hi, i);
      assert Fold4(vals, lo, hi, i) == Acc([], 0);
    } else {
      var k := i - 1;
      Fold4Packed(vals, lo, hi, k);
      Fold4StateNext(vals, lo, hi, k);
      assert Fold4State(vals, lo, hi, k + 1);
    }
  }

  /** Packed4 after column i - 1, over the values of lo..i-1. */
  ghost predicate Fold4State(vals: seq<u8>, lo: int, hi: int, i: nat)
    requires ValuesOk(4, vals) && 0 <= lo <= i <= |vals|
  {
    Packed4(Fold4(vals, lo, hi, i), vals[lo..i], i == hi + 1)
  }

  /** Column k keeps the packing state. */
  lemma Fold4StateNext(vals: seq<u8>, lo: int, hi: int, k: nat)
    requires ValuesOk(4, vals) && 0 <= lo <= k <= hi && k < |vals| && lo % 2 == 0
    requires Packed4(Fold4(vals, lo, hi, k), vals[lo..k], false)
    ensures Fold4State(vals, lo, hi, k + 1)
  {
    var acc := Fold4(vals, lo, hi, k);
    var s0: seq<int> := vals[lo..k];
    Fold4Last(vals, lo, hi, k);
    assert |s0| > 0 ==> s0[|s0| - 1] == vals[k - 1];
    EvenShift(k, lo);
    Packed4Step(acc, s0, vals[k], k, k == hi);
  }

  /** At 4 bits per colour a line starting on an even column writes exactly the
      reference packing of the palette indices of columns lo..hi. */
  lemma LineCalls4(c: Ctx, nx: int, ny: int, j: int, lo: int, hi: int)
    requires c.p.bpc == 4 && PalOk(c)
    requires 0 <= lo <= hi + 1 <= c.p.sizeX && lo % 2 == 0
    ensures Line(c, nx, ny, j, lo, hi).calls == DataCalls(Nibbles(RowValues(c, nx, ny, j)[lo..hi + 1]))
  {
    var vals := RowValues(c, nx, ny, j);
    assert Line(c, nx, ny, j, lo, hi) == Fold4(vals, lo, hi, |vals|);
    LineDataOutside(4, vals, Addr(c, nx, ny, 0, j), lo, hi, |vals|);
    Fold4Packed(vals, lo, hi, hi + 1);
  }

  // ------------------------------------------------------------------------------------
  // 1 bit per colour.

  /** The calls that write the bit bytes bs one by one. */
  function BitsCalls(bs: seq<int>): (t: seq<Call>)
    ensures |t| == |bs|
  {
    seq(|bs|, k requires 0 <= k < |bs| => BitsData(Wrap8(bs[k])))
  }

  lemma BitsCallsSnoc(bs: seq<int>, b: int)
    ensures BitsCalls(bs + [b]) == BitsCalls(bs) + [BitsData(Wrap8(b))]
  {
  }

  /** Writing bit bytes one by one outputs exactly those bytes. */
  lemma {:induction false} BitsCallsBytes(bs: seq<int>)
    requires forall k :: 0 <= k < |bs| ==> 0 <= bs[k] < 0x100
    ensures Bytes(BitsCalls(bs)) == bs
  {
    if bs != [] {
      var init := bs[..|bs| - 1];
      var b := bs[|bs| - 1];
      BitsCallsBytes(init);
      BitsCallsBytesSnoc(init, b);
      assert bs == init + [b];
    }
  }

  lemma BitsCallsBytesSnoc(init: seq<int>, b: int)
    requires Bytes(BitsCalls(init)) == init && 0 <= b < 0x100
    ensures Bytes(BitsCalls(init + [b])) == init + [b]
  {
    BitsCallsSnoc(init, b);
    BytesSnoc(BitsCalls(init), BitsData(Wrap8(b)));
  }

  /** The byte of a group of at most eight 1-bit values, the first value in bit 7. */
  function GroupByte(g: seq<u8>): nat
    requires |g| <= 8
  {
    if g == [] then 0
    else GroupByte(g[..|g| - 1]) + (if g[|g| - 1] != 0 then BitMask(|g| - 1) as nat else 0)
  }

  lemma ShapeArith(q0: nat, p: nat, bit: nat, gb0: nat, gb: nat)
    requires bit <= 1 && gb0 == q0 * (2 * p) && gb == gb0 + bit * p && gb0 + 2 * p <= 0x100
    ensures gb == (2 * q0 + bit) * p && gb + p <= 0x100
  {
  }

  /** x is q times p. */
  ghost predicate MultipleOf(x: nat, q: nat, p: nat)
  {
    x == q * p
  }

  /** A group of t values only uses the top t bits: it is a multiple of 2^(8 - t) and
      leaves room for the next bit. */
  lemma {:induction false} GroupByteShape(g: seq<u8>) returns (q: nat)
    requires |g| <= 8
    ensures MultipleOf(GroupByte(g), q, Pow2(8 - |g|))
    ensures GroupByte(g) + Pow2(8 - |g|) <= 0x100
  {
    if g == [] {
      q := 0;
      assert Pow2(8) == 0x100 by {
        assert Pow2(4) == 16;
        assert Pow2(8) == 2 * 2 * 2 * 2 * Pow2(4);
      }
    } else {
      var init := g[..|g| - 1];
      var q0 := GroupByteShape(init);
      var p := Pow2(8 - |g|);
      assert Pow2(8 - |init|) == 2 * p;
      var bit := if g[|g| - 1] != 0 then 1 else 0;
      assert GroupByte(g) == GroupByte(init) + bit * p;
      ShapeArith(q0, p, bit, GroupByte(init), GroupByte(g));
      q := 2 * q0 + bit;
    }
  }

  /** The reference packing of 1-bit values: eight per byte, the first in bit 7; a short
      last group fills the high bits. */
  function Bits(s: seq<u8>): (r: seq<int>)
    ensures |r| == (|s| + 7) / 8
  {
    if s == [] then []
    else if |s| <= 8 then [GroupByte(s)]
    else [GroupByte(s[..8])] + Bits(s[8..])
  }

  /** Appending a group to whole groups appends its byte. */
  lemma {:induction false} BitsSnocGroup(full: seq<u8>, g: seq<u8>)
    requires |full| % 8 == 0 && 0 < |g| <= 8
    ensures Bits(full + g) == Bits(full) + [GroupByte(g)]
  {
    if full != [] {
      var s := full + g;
      assert s[..8] == full[..8];
      assert s[8..] == full[8..] + g;
      BitsSnocGroup(full[8..], g);
      assert Bits(full) == [GroupByte(full[..8])] + Bits(full[8..]);
    } else {
      assert full + g == g;
    }
  }

  /** Every reference byte is a byte. */
  lemma {:induction false} BitsBytes(s: seq<u8>)
    ensures forall k :: 0 <= k < |Bits(s)| ==> 0 <= Bits(s)[k] < 0x100
  {
    if |s| > 8 {
      BitsBytes(s[8..]);
      var _ := GroupByteShape(s[..8]);
    } else if s != [] {
      var _ := GroupByteShape(s);
    }
  }

  /** The state of a 1-bit line aligned on a byte of the buffer, whose values so far are
      the complete groups full followed by the current group g: the complete groups are
      out; the bits of g wait in the byte, unless the line has ended and g is out too. */
  ghost predicate Packed1(acc: Acc, full: seq<u8>, g: seq<u8>, atEnd: bool)
  {
    |full| % 8 == 0 && |g| < 8 &&
    if atEnd && g != [] then acc.calls == BitsCalls(Bits(full + g))
    else acc.calls == BitsCalls(Bits(full)) && acc.byte == GroupByte(g)
  }

  /** OR-ing bit t into a multiple of 2^(8 - t) adds it. */
  lemma OrBitAdd(x: nat, t: int, q: nat)
    requires 0 <= t < 8 && x < 0x100 && MultipleOf(x, q, Pow2(8 - t))
    ensures Or8(x as u8, BitMask(t)) == x + BitMask(t)
  {
    Pow2Half(t);
    BitOrDisjoint(q, Pow2(7 - t), 8 - t);
  }

  /** OR-ing the bit of position |g| into the byte of group g gives the byte of the
      group extended by v. */
  lemma OrNextBit(g: seq<u8>, v: u8)
    requires |g| < 8
    ensures GroupByte(g) < 0x100 && GroupByte(g + [v]) < 0x100
    ensures GroupByte(g + [v]) == if v != 0 then Or8(GroupByte(g), BitMask(|g|)) as nat else GroupByte(g)
  {
    GroupByteSnoc(g, v);
    GroupRoom(g);
    if v != 0 {
      OrGroupBit(g);
    }
  }

  /** A group of fewer than 8 values leaves room for the next bit. */
  lemma GroupRoom(g: seq<u8>)
    requires |g| < 8
    ensures GroupByte(g) + 2 * Pow2(7 - |g|) <= 0x100
  {
    var _ := GroupByteShape(g);
    Pow2Half(|g|);
  }

  /** OR-ing the next bit into a group's byte adds it. */
  lemma OrGroupBit(g: seq<u8>)
    requires |g| < 8 && GroupByte(g) < 0x100
    ensures Or8(GroupByte(g) as u8, BitMask(|g|)) == GroupByte(g) + BitMask(|g|)
  {
    var q := GroupByteShape(g);
    OrBitAdd(GroupByte(g), |g|, q);
  }

  lemma GroupByteSnoc(g: seq<u8>, v: u8)
    requires |g| < 8
    ensures GroupByte(g + [v]) == GroupByte(g) + (if v != 0 then BitMask(|g|) as nat else 0)
  {
    assert (g + [v])[..|g|] == g;
  }

  lemma Pow2Half(t: int)
    requires 0 <= t < 8
    ensures Pow2(8 - t) == 2 * Pow2(7 - t)
  {
  }

  /** Step1 on the column at position |g| of its group. */
  lemma Step1Group(acc: Acc, g: seq<u8>, v: u8, a: int, last: bool)
    requires |g| < 8 && a % 8 == |g| && acc.byte == GroupByte(g)
    ensures GroupByte(g + [v]) < 0x100
    ensures Step1(acc, v != 0, a, last) ==
      if |g| == 7 || last then Acc(acc.calls + [BitsData(GroupByte(g + [v]) as u8)], 0)
      else Acc(acc.calls, GroupByte(g + [v]) as u8)
  {
    OrNextBit(g, v);
  }

  lemma AlignShift(a: int, b: int)
    requires b % 8 == 0
    ensures (a + b) % 8 == a % 8
  {
    var h := b / 8;
    assert b == 8 * h;
  }

  lemma BitsSnocByte(full: seq<u8>, g1: seq<u8>, b: u8)
    requires |full| % 8 == 0 && 0 < |g1| <= 8 && b as nat == GroupByte(g1)
    ensures Bits(full + g1) == Bits(full) + [b as int]
  {
    BitsSnocGroup(full, g1);
  }

  lemma BitsCallsSnocByte(calls: seq<Call>, bs: seq<int>, b: u8)
    requires calls == BitsCalls(bs)
    ensures calls + [BitsData(b)] == BitsCalls(bs + [b as int])
  {
    BitsCallsSnoc(bs, b);
  }

  /** Writing out the byte of group g1 after the complete groups full. */
  lemma Packed1Flush(calls: seq<Call>, full: seq<u8>, g1: seq<u8>, b: u8)
    requires |full| % 8 == 0 && 0 < |g1| <= 8
    requires calls == BitsCalls(Bits(full)) && b as nat == GroupByte(g1)
    ensures calls + [BitsData(b)] == BitsCalls(Bits(full + g1))
  {
    BitsSnocByte(full, g1, b);
    BitsCallsSnocByte(calls, Bits(full), b);
  }

  /** Column k is in [lo, hi]: it is packed by Step1. */
  lemma Fold1Last(vals: seq<u8>, base: int, lo: int, hi: int, k: nat)
    requires 0 <= lo <= k <= hi && k < |vals|
    ensures Fold1(vals, base, lo, hi, k + 1) == Step1(Fold1(vals, base, lo, hi, k), vals[k] != 0, base + k, k == hi)
  {
  }

  /** One column at position |g| of its group keeps the packing state. */
  lemma Packed1Next(acc: Acc, full: seq<u8>, g: seq<u8>, v: u8, a: int, last: bool, next: Acc)
    requires Packed1(acc, full, g, false) && a % 8 == |g|
    requires next == Step1(acc, v != 0, a, last)
    ensures |g| == 7 ==> Packed1(next, full + (g + [v]), [], last)
    ensures |g| < 7 ==> Packed1(next, full, g + [v], last)
  {
    Step1Group(acc, g, v, a, last);
    var b := GroupByte(g + [v]) as u8;
    if |g| == 7 || last {
      Packed1Flush(acc.calls, full, g + [v], b);
      if |g| == 7 {
        AlignShift(8, |full|);
      }
    }
  }

  /** How the split of the values lo..k-1 into complete groups and the current group
      moves on by column k. */
  lemma SplitNext(vals: seq<u8>, lo: int, k: int)
    requires 0 <= lo <= k < |vals|
    ensures var r0 := (k - lo) % 8; var r := (k + 1 - lo) % 8;
      var full := vals[lo..k - r0]; var g := vals[k - r0..k];
      if r0 == 7 then r == 0 && vals[lo..k + 1 - r] == full + (g + [vals[k]]) && vals[k + 1 - r..k + 1] == []
      else r == r0 + 1 && vals[lo..k + 1 - r] == full && vals[k + 1 - r..k + 1] == g + [vals[k]]
  {
    var r0 := (k - lo) % 8;
    ModNext(k - lo);
    if r0 == 7 {
      assert vals[lo..k + 1] == vals[lo..k - 7] + (vals[k - 7..k] + [vals[k]]);
    } else {
      assert vals[k - r0..k + 1] == vals[k - r0..k] + [vals[k]];
    }
  }

  lemma ModNext(n: nat)
    ensures (n + 1) % 8 == if n % 8 == 7 then 0 else n % 8 + 1
  {
    var q := n / 8;
    assert n == 8 * q + n % 8;
  }

  /** At the end of a line every value is out. */
  lemma Packed1End(acc: Acc, full: seq<u8>, g: seq<u8>)
    requires Packed1(acc, full, g, true)
    ensures acc.calls == BitsCalls(Bits(full + g))
  {
    if g == [] {
      assert full + g == full;
    }
  }

  /** The line after column i - 1 is in the packing state of the values of lo..i-1, split
      into complete groups and the current group, when column lo is at a buffer index that
      is a multiple of 8. */
  lemma {:induction false} Fold1Packed(vals: seq<u8>, base: int, lo: int, hi: int, i: nat)
    requires 0 <= lo <= i <= hi + 1 && i <= |vals| && (base + lo) % 8 == 0
    ensures Fold1State(vals, base, lo, hi, i)
  {
    if i == lo {
      LineDataOutside(1, vals, base, lo, hi, i);
      assert Fold1(vals, base, lo, hi, i) == Acc([], 0);
      assert vals[i..i] == [];
    } else {
      var k := i - 1;
      Fold1Packed(vals, base, lo, hi, k);
      Fold1StateNext(vals, base, lo, hi, k);
    }
  }

  /** The packing state of a 1-bit line after column i - 1: the values of lo..i-1 split
      into complete groups and the current group. */
  ghost predicate Fold1State(vals: seq<u8>, base: int, lo: int, hi: int, i: nat)
    requires 0 <= lo <= i <= hi + 1 && i <= |vals|
  {
    var r := (i - lo) % 8;
    Packed1(Fold1(vals, base, lo, hi, i), vals[lo..i - r], vals[i - r..i], i == hi + 1)
  }

  lemma Fold1StateNext(vals: seq<u8>, base: int, lo: int, hi: int, k: nat)
    requires 0 <= lo <= k <= hi && k < |vals| && (base + lo) % 8 == 0
    requires Fold1State(vals, base, lo, hi, k)
    ensures Fold1State(vals, base, lo, hi, k + 1)
  {
    Fold1Last(vals, base, lo, hi, k);
    AlignShift(k - lo, base + lo);
    Packed1Step(vals, lo, hi, k, Fold1(vals, base, lo, hi, k), Fold1(vals, base, lo, hi, k + 1), base + k);
  }

  /** Column k moves the packing state of the values lo..k-1 to that of lo..k. */
  lemma Packed1Step(vals: seq<u8>, lo: int, hi: int, k: int, prev: Acc, next: Acc, a: int)
    requires 0 <= lo <= k <= hi && k < |vals| && a % 8 == (k - lo) % 8
    requires var r0 := (k - lo) % 8; Packed1(prev, vals[lo..k - r0], vals[k - r0..k], k == hi + 1)
    requires next == Step1(prev, vals[k] != 0, a, k == hi)
    ensures var r := (k + 1 - lo) % 8; Packed1(next, vals[lo..k + 1 - r], vals[k + 1 - r..k + 1], k + 1 == hi + 1)
  {
    var r0 := (k - lo) % 8;
    var full := vals[lo..k - r0];
    var g := vals[k - r0..k];
    Packed1Next(prev, full, g, vals[k], a, k == hi, next);
    SplitNext(vals, lo, k);
  }

  /** The whole 1-bit line over columns lo..hi writes the reference packing. */
  lemma Fold1Line(vals: seq<u8>, base: int, lo: int, hi: int)
    requires 0 <= lo <= hi + 1 <= |vals| && (base + lo) % 8 == 0
    ensures Fold1(vals, base, lo, hi, |vals|).calls == BitsCalls(Bits(vals[lo..hi + 1]))
  {
    var e := hi + 1;
    LineDataOutside(1, vals, base, lo, hi, |vals|);
    Fold1Packed(vals, base, lo, hi, e);
    Fold1StateEnd(vals, base, lo, hi, e);
  }

  /** The packing state after the last column has written every group. */
  lemma Fold1StateEnd(vals: seq<u8>, base: int, lo: int, hi: int, e: nat)
    requires 0 <= lo <= e <= |vals| && e == hi + 1
    requires Fold1State(vals, base, lo, hi, e)
    ensures Fold1(vals, base, lo, hi, e).calls == BitsCalls(Bits(vals[lo..e]))
  {
    var m := e - (e - lo) % 8;
    Packed1End(Fold1(vals, base, lo, hi, e), vals[lo..m], vals[m..e]);
    assert vals[lo..m] + vals[m..e] == vals[lo..e];
  }

  /** At 1 bit per colour a line whose first column falls on a byte of the buffer writes
      exactly the reference packing of the set pixels of columns lo..hi. */
  lemma LineCalls1(c: Ctx, nx: int, ny: int, j: int, lo: int, hi: int)
    requires c.p.bpc == 1 && PalOk(c)
    requires 0 <= lo <= hi + 1 <= c.p.sizeX && ByteAligned(c, nx, ny, lo, j)
    ensures Line(c, nx, ny, j, lo, hi).calls == BitsCalls(Bits(RowValues(c, nx, ny, j)[lo..hi + 1]))
  {
    var vals := RowValues(c, nx, ny, j);
    var base := Addr(c, nx, ny, 0, j);
    AddrColumn(c, nx, ny, lo, j);
    assert Line(c, nx, ny, j, lo, hi) == Fold1(vals, base, lo, hi, |vals|);
    Fold1Line(vals, base, lo, hi);
  }
}
