// Mapping a pixel to what the encoder stores: a 4-bit palette index chosen by the
// smallest Manhattan distance in RGB space, or a non-zero GRB8 byte with 0 reserved for
// the transparent colour.
module ColorMap {
  import opened Types
  import opened Color

  function Abs(x: int): nat { if x < 0 then -x else x }

  /** |dR| + |dG| + |dB| between two 0xRRGGBB colours. */
  function Distance(a: u32, b: u32): (d: nat)
    ensures d <= 3 * 255
  {
    var p := FromU32(a);
    var c := FromU32(b);
    Abs(p.R - c.R) + Abs(p.G - c.G) + Abs(p.B - c.B)
  }

  /** The best (weight, index) pair after comparing palette entries 1..n in increasing
      order, starting from weight 256 * 4 and index 0, with a strict comparison. */
  function BestUpTo(color: u32, pal: seq<u32>, n: nat): (r: (int, int))
    requires n == 0 || n < |pal|
  {
    if n == 0 then (256 * 4, 0)
    else
      var prev := BestUpTo(color, pal, n - 1);
      var w := Distance(pal[n], color);
      if w < prev.0 then (w, n) else prev
  }

  /** The scan finds a closest entry among 1..n, and the first of them on a tie. */
  lemma {:induction false} BestUpToIsNearest(color: u32, pal: seq<u32>, n: nat)
    requires n < |pal|
    ensures var r := BestUpTo(color, pal, n);
      && (n == 0 ==> r == (256 * 4, 0))
      && (n > 0 ==> 1 <= r.1 <= n && r.0 == Distance(pal[r.1], color))
      && (forall m :: 1 <= m <= n ==> r.0 <= Distance(pal[m], color))
      && (forall m :: 1 <= m < r.1 ==> r.0 < Distance(pal[m], color))
  {
    if n > 0 {
      BestUpToIsNearest(color, pal, n - 1);
    }
  }

  /** As written: the loop runs a u8 counter over 1..count+1 and so reads entry count+1.
      It needs count + 2 entries, and a count + 1 of 255 or more would never end the
      loop. A negative count gives index 0. */
  method GetNearestColorIndex(color: u32, pal: seq<u32>, count: int) returns (bestIndex: u8)
    requires count + 2 <= |pal|
    requires count + 1 < 255
    ensures count < 0 ==> bestIndex == 0
    ensures count >= 0 ==> 1 <= bestIndex <= count + 1
    ensures count >= 0 ==> bestIndex == BestUpTo(color, pal, count + 1).1
  {
    bestIndex := 0;
    var bestWeight := 256 * 4;
    var i: u8 := 1;
    while i <= count + 1
      invariant 1 <= i
      invariant count >= 0 ==> i <= count + 2
      invariant count < 0 ==> i == 1
      invariant (bestWeight, bestIndex as int) == BestUpTo(color, pal, i - 1)
      invariant i > 1 ==> 1 <= bestIndex < i
      decreases count + 2 - i
    {
      var weight := Distance(pal[i], color);
      if weight < bestWeight {
        bestWeight := weight;
        bestIndex := i;
      }
      i := i + 1;
    }
  }

  /** The default palette count is 15 and both palettes have 16 entries, so the default
      call does not meet the as-written requirement: it reads entry 16. */
  lemma DefaultCountReadsPastPalette()
    ensures !(15 + 2 <= |PaletteMSX()|)
    ensures 15 + 1 == |PaletteMSX()|
  {
  }

  /** The intended search: palette entries 1..count, the entries the palette holds after
      its reserved entry 0. */
  function NearestColor(color: u32, pal: seq<u32>, count: int): (k: int)
    requires count < |pal|
    ensures count <= 0 ==> k == 0
    ensures count > 0 ==> 1 <= k <= count
  {
    if count <= 0 then 0
    else
      BestUpToIsNearest(color, pal, count);
      BestUpTo(color, pal, count).1
  }

  /** The intended search returns a closest entry, the first one on a tie. */
  lemma NearestColorIsNearest(color: u32, pal: seq<u32>, count: int)
    requires 0 < count < |pal|
    ensures var k := NearestColor(color, pal, count);
      && (forall m :: 1 <= m <= count ==> Distance(pal[k], color) <= Distance(pal[m], color))
      && (forall m :: 1 <= m < k ==> Distance(pal[k], color) < Distance(pal[m], color))
  {
    BestUpToIsNearest(color, pal, count);
  }

  /** The corrected loop: the same scan stopping at entry count. */
  method NearestColorIndex(color: u32, pal: seq<u32>, count: int) returns (bestIndex: u8)
    requires count < |pal| && count < 255
    ensures bestIndex == NearestColor(color, pal, count)
  {
    bestIndex := 0;
    var bestWeight := 256 * 4;
    var i := 1;
    while i <= count
      invariant 1 <= i
      invariant count >= 0 ==> i <= count + 1
      invariant count < 0 ==> i == 1
      invariant (bestWeight, bestIndex as int) == BestUpTo(color, pal, i - 1)
      invariant 0 <= bestIndex < i
      decreases count + 1 - i
    {
      var weight := Distance(pal[i], color);
      if weight < bestWeight {
        bestWeight := weight;
        bestIndex := i;
      }
      i := i + 1;
    }
  }

  /** The 8-bit colour of a pixel: 0 for the transparent colour, otherwise the GRB8
      packing, where a packing of 0 is replaced by the smallest green (0x20) or red (0x04)
      step so that 0 stays reserved. */
  function GetGBR8(color: u32, transRGB: u32): (r: u8)
    ensures r == 0 <==> color == transRGB
    ensures color != transRGB && ToGRB8(FromU32(color)).RGB != 0 ==> r == ToGRB8(FromU32(color)).RGB
    ensures color != transRGB && ToGRB8(FromU32(color)).RGB == 0 ==>
      r == (if FromU32(color).G > FromU32(color).R then 0x20 else 0x04)
  {
    if color != transRGB then
      var c24 := FromU32(color);
      var c8 := ToGRB8(c24).RGB;
      if c8 == 0 then
        if c24.G > c24.R then 0x20 else 0x04
      else
        c8
    else
      0
  }
}
