// Colour types of the MSX encoder: the 24-bit RGB24 triple, the 8-bit G3 R3 B2 byte
// (GRB8) of the MSX2 screen modes, the conversions between them and the fixed MSX1
// palette.
module Color {
  import opened Types

  /** R8 G8 B8 colour. */
  datatype RGB24 = RGB24(R: u8, G: u8, B: u8)

  /** G3 R3 B2 colour: green in bits 7..5, red in bits 4..2, blue in bits 1..0. */
  datatype GRB8 = GRB8(RGB: u8)

  /** The default constructors: RGB24() is black, GRB8() holds 0. */
  const DefaultRGB24 := RGB24(0, 0, 0)
  const DefaultGRB8 := GRB8(0)

  /** RGB24(u32): the red, green and blue bytes of 0x??RRGGBB; the top byte is ignored. */
  function FromU32(x: u32): RGB24
  {
    RGB24((x / 0x1_0000) % 0x100, (x / 0x100) % 0x100, x % 0x100)
  }

  /** The 0xRRGGBB value of a colour, the layout `FromU32` reads. */
  function ToU32(c: RGB24): (x: u32)
    ensures x < 0x100_0000
  {
    c.R * 0x1_0000 + c.G * 0x100 + c.B
  }

  /** Unpacking undoes packing. */
  lemma UnpackPack(c: RGB24)
    ensures FromU32(ToU32(c)) == c
  {
    var x := ToU32(c);
    assert x / 0x100 == c.R * 0x100 + c.G;
    assert x / 0x1_0000 == c.R;
  }

  /** Packing an unpacked value gives back its low 24 bits: bits 24..31 are ignored. */
  lemma PackUnpack(x: u32)
    ensures ToU32(FromU32(x)) == x % 0x100_0000
  {
    var mid := x / 0x100;
    var hi := mid / 0x100;
    DivTwice(x);
    ByteSplit(x);
    ByteSplit(mid);
    ByteSplit(hi);
    LowBytes(x, hi / 0x100, ToU32(FromU32(x)));
  }

  /** Dividing by 0x1_0000 is dividing by 0x100 twice. */
  lemma DivTwice(x: nat)
    ensures x / 0x1_0000 == (x / 0x100) / 0x100
  {
    var q := (x / 0x100) / 0x100;
    assert x == q * 0x1_0000 + ((x / 0x100) % 0x100) * 0x100 + x % 0x100;
  }

  /** A value is its low byte plus 0x100 times the rest. */
  lemma ByteSplit(y: nat)
    ensures y == (y / 0x100) * 0x100 + y % 0x100
  {
  }

  /** The part of x below 0x100_0000, once x is split at that power. */
  lemma LowBytes(x: nat, t: nat, low: nat)
    requires low < 0x100_0000 && x == t * 0x100_0000 + low
    ensures x % 0x100_0000 == low
  {
  }

  /** RGB24(x) depends on the low 24 bits of x only. */
  lemma HighByteIgnored(x: u32)
    ensures FromU32(x) == FromU32(x % 0x100_0000)
  {
    PackUnpack(x);
    UnpackPack(FromU32(x));
  }

  /** The 3-bit red and green fields and the 2-bit blue field of the encoder. */
  function Field7(v: u8): (f: int)
    ensures 0 <= f <= 7
  {
    v * 7 / 255
  }

  function Field3(v: u8): (f: int)
    ensures 0 <= f <= 3
  {
    v * 3 / 255
  }

  /** GRB8(RGB24): packs (g << 5) + (r << 2) + b into a byte. The packing never
      truncates, and each field can be read back from its own bits. */
  function ToGRB8(c: RGB24): (g: GRB8)
    ensures g.RGB == Field7(c.G) * 32 + Field7(c.R) * 4 + Field3(c.B)
    ensures g.RGB / 32 == Field7(c.G)
    ensures (g.RGB % 32) / 4 == Field7(c.R)
    ensures g.RGB % 4 == Field3(c.B)
  {
    var r := Field7(c.R);
    var gr := Field7(c.G);
    var b := Field3(c.B);
    GRB8(Wrap8(gr * 32 + r * 4 + b))
  }

  lemma FieldsMonotone(v1: u8, v2: u8)
    requires v1 <= v2
    ensures Field7(v1) <= Field7(v2) && Field3(v1) <= Field3(v2)
  {
    assert v1 * 7 <= v2 * 7 && v1 * 3 <= v2 * 3;
  }

  /** Each encoded field is non-decreasing in its own channel. */
  lemma {:induction false} ToGRB8Monotone(c1: RGB24, c2: RGB24)
    requires c1.R <= c2.R && c1.G <= c2.G && c1.B <= c2.B
    ensures ToGRB8(c1).RGB / 32 <= ToGRB8(c2).RGB / 32
    ensures (ToGRB8(c1).RGB % 32) / 4 <= (ToGRB8(c2).RGB % 32) / 4
    ensures ToGRB8(c1).RGB % 4 <= ToGRB8(c2).RGB % 4
  {
    FieldsMonotone(c1.R, c2.R);
    FieldsMonotone(c1.G, c2.G);
    FieldsMonotone(c1.B, c2.B);
  }

  /** Black packs to 0x00 and white to 0xFF. */
  lemma ToGRB8Extremes()
    ensures ToGRB8(DefaultRGB24) == DefaultGRB8
    ensures ToGRB8(RGB24(255, 255, 255)) == GRB8(0xFF)
  {
  }

  /** Scaling of a 3-bit field back to 0..255 and of the 2-bit blue field. */
  function Level7(f: int): u8
    requires 0 <= f <= 7
  {
    Wrap8(f * 255 / 7)
  }

  function Level3(f: int): u8
    requires 0 <= f <= 3
  {
    Wrap8(f * 255 / 3)
  }

  /** RGB24(GRB8) as written: red is read from bits 7..5 (c / 32), green from bits
      4..2 ((c & 0x1C) / 4) and blue from bits 1..0. */
  function FromGRB8(g: GRB8): (c: RGB24)
    ensures g.RGB == 0 ==> c == DefaultRGB24
    ensures g.RGB == 0xFF ==> c == RGB24(255, 255, 255)
  {
    var r := g.RGB / 32;
    var gr := (g.RGB % 32) / 4;
    var b := g.RGB % 4;
    RGB24(Level7(r), Level7(gr), Level3(b))
  }

  /** Decoding an encoded colour as written exchanges red and green: the red output
      comes from the green field and the green output from the red field. */
  lemma FromGRB8SwapsRedGreen(c: RGB24)
    ensures FromGRB8(ToGRB8(c)) == RGB24(Level7(Field7(c.G)), Level7(Field7(c.R)), Level3(Field3(c.B)))
  {
  }

  /** Pure green comes back as pure red. */
  lemma FromGRB8GreenBecomesRed()
    ensures ToGRB8(RGB24(0, 255, 0)) == GRB8(0xE0)
    ensures FromGRB8(ToGRB8(RGB24(0, 255, 0))) == RGB24(255, 0, 0)
  {
    FromGRB8SwapsRedGreen(RGB24(0, 255, 0));
  }

  /** The decoder with the fields read from the bits the encoder writes them to. */
  function FromGRB8Fixed(g: GRB8): (c: RGB24)
    ensures g.RGB == 0 ==> c == DefaultRGB24
    ensures g.RGB == 0xFF ==> c == RGB24(255, 255, 255)
  {
    var gr := g.RGB / 32;
    var r := (g.RGB % 32) / 4;
    var b := g.RGB % 4;
    RGB24(Level7(r), Level7(gr), Level3(b))
  }

  /** With the fixed decoder each channel comes back from its own field. */
  lemma FromGRB8FixedKeepsChannels(c: RGB24)
    ensures FromGRB8Fixed(ToGRB8(c)) == RGB24(Level7(Field7(c.R)), Level7(Field7(c.G)), Level3(Field3(c.B)))
  {
  }

  /** Re-encoding a decoded byte keeps its top level and its zero level: full
      intensity stays 7 (or 3) and zero stays zero in every field. */
  lemma {:induction false} FixedRoundTripExtremes(g: GRB8)
    ensures ToGRB8(FromGRB8Fixed(g)).RGB / 32 == 7 <==> g.RGB / 32 == 7
    ensures ToGRB8(FromGRB8Fixed(g)).RGB / 32 == 0 <==> g.RGB / 32 <= 1
  {
    var f := g.RGB / 32;
    assert 0 <= f <= 7;
    assert Level7(f) == f * 255 / 7;
    if f == 0 { } else if f == 1 { } else if f == 2 { } else if f == 3 { }
    else if f == 4 { } else if f == 5 { } else if f == 6 { } else { }
  }

  /** The MSX1 palette as 0xRRGGBB values; index 0 (transparent) and 1 are black. */
  function PaletteMSX(): (p: seq<u32>)
    ensures |p| == 16
    ensures p[0] == 0 && p[1] == 0 && p[15] == 0xFFFFFF
  {
    [ 0x000000, 0x000000, 0x3EB849, 0x74D07D, 0x5955E0, 0x8076F1, 0xB95E51, 0x65DBEF,
      0xDB6559, 0xFF897D, 0xCCC35E, 0xDED087, 0x3AA241, 0xB766B5, 0xCCCCCC, 0xFFFFFF ]
  }
}
