// The bounds the crop schemes store: the masks each scheme applies to a block's box or a
// line's range, and the header bytes that carry them.
module Crop {
  import opened Types
  import opened Params
  import opened Exporter
  import opened ExportCalls
  import opened Block

  /** An empty block that is not skipped gets the box (0, 0, 0, 0) under a crop scheme. */
  function EmptyRule(comp: Compressor, b: Box): Box
  {
    if b.count == 0 && comp.IsCrop() then Box(0, 0, 0, 0, 0) else b
  }

  /** A 3-bit minimum: larger values are saturated at 7. */
  function Min7(x: int): int { if x > 7 then 7 else x }

  /** The masks a scheme applies to the box: 4 bits each for Crop16, a saturated 3-bit
      minimum and a 5-bit maximum for Crop32; the line variants mask only Y here. */
  function MaskBox(comp: Compressor, b: Box): Box
  {
    match comp
    case Crop16 => Box(b.minX % 16, b.maxX % 16, b.minY % 16, b.maxY % 16, b.count)
    case CropLine16 => b.(minY := b.minY % 16, maxY := b.maxY % 16)
    case Crop32 => Box(Min7(b.minX), b.maxX % 32, Min7(b.minY), b.maxY % 32, b.count)
    case CropLine32 => b.(minY := Min7(b.minY), maxY := b.maxY % 32)
    case _ => b
  }

  /** The header line a crop scheme writes for a (masked) box. */
  function BoxHeader(comp: Compressor, b: Box): seq<Call>
  {
    match comp
    case Crop16 => [TwoBytesLine(Wrap8(b.minX * 16 + b.maxX), Wrap8(b.minY * 16 + b.maxY))]
    case CropLine16 => [ByteLine(Wrap8(b.minY * 16 + b.maxY))]
    case Crop32 => [TwoBytesLine(Wrap8(b.minX * 32 + b.maxX), Wrap8(b.minY * 32 + b.maxY))]
    case CropLine32 => [ByteLine(Wrap8(b.minY * 32 + b.maxY))]
    case Crop256 => [FourBytesLine(Wrap8(b.minX), Wrap8(b.maxX), Wrap8(b.minY), Wrap8(b.maxY))]
    case CropLine256 => [TwoBytesLine(Wrap8(b.minY), Wrap8(b.maxY))]
    case _ => []
  }

  /** Reading a header back: the bounds a decoder recovers, X bounds first when present. */
  function DecodeBoxHeader(comp: Compressor, h: seq<Call>): seq<int>
  {
    if |h| != 1 then []
    else
      var l := h[0];
      match comp
      case Crop16 => if l.TwoBytesLine? then [l.a / 16, l.a % 16, l.b / 16, l.b % 16] else []
      case CropLine16 => if l.ByteLine? then [l.a / 16, l.a % 16] else []
      case Crop32 => if l.TwoBytesLine? then [l.a / 32, l.a % 32, l.b / 32, l.b % 32] else []
      case CropLine32 => if l.ByteLine? then [l.a / 32, l.a % 32] else []
      case Crop256 => if l.FourBytesLine? then [l.a, l.b, l.c, l.d] else []
      case CropLine256 => if l.TwoBytesLine? then [l.a, l.b] else []
      case _ => []
  }

  /** The bounds a scheme stores for a box. */
  function StoredBounds(comp: Compressor, b: Box): seq<int>
  {
    if comp.IsCropLine() then [b.minY, b.maxY]
    else if comp.IsCrop() then [b.minX, b.maxX, b.minY, b.maxY]
    else []
  }

  /** A byte made of a high field times 16 plus a low 4-bit field reads back both. */
  lemma Pack16(hi: int, lo: int)
    requires 0 <= hi < 16 && 0 <= lo < 16
    ensures Wrap8(hi * 16 + lo) == hi * 16 + lo
    ensures Wrap8(hi * 16 + lo) / 16 == hi && Wrap8(hi * 16 + lo) % 16 == lo
  {
  }

  /** The same for a 3-bit high field and a 5-bit low field. */
  lemma Pack32(hi: int, lo: int)
    requires 0 <= hi < 8 && 0 <= lo < 32
    ensures Wrap8(hi * 32 + lo) == hi * 32 + lo
    ensures Wrap8(hi * 32 + lo) / 32 == hi && Wrap8(hi * 32 + lo) % 32 == lo
  {
  }

  /** The header holds exactly the masked bounds: for every box with coordinates in
      0..255, decoding the header gives back the bounds after the scheme's masks. */
  lemma BoxHeaderRoundTrip(comp: Compressor, b: Box)
    requires comp.IsCrop()
    requires 0 <= b.minX < 256 && 0 <= b.maxX < 256 && 0 <= b.minY < 256 && 0 <= b.maxY < 256
    ensures DecodeBoxHeader(comp, BoxHeader(comp, MaskBox(comp, b))) == StoredBounds(comp, MaskBox(comp, b))
  {
    var m := MaskBox(comp, b);
    match comp {
      case Crop16 => Header16RoundTrip(m);
      case CropLine16 => HeaderLine16RoundTrip(m);
      case Crop32 => Header32RoundTrip(m);
      case CropLine32 => HeaderLine32RoundTrip(m);
      case Crop256 =>
      case CropLine256 =>
    }
  }

  lemma Header16RoundTrip(m: Box)
    requires 0 <= m.minX < 16 && 0 <= m.maxX < 16 && 0 <= m.minY < 16 && 0 <= m.maxY < 16
    ensures DecodeBoxHeader(Crop16, BoxHeader(Crop16, m)) == StoredBounds(Crop16, m)
  {
    Pack16(m.minX, m.maxX);
    Pack16(m.minY, m.maxY);
  }

  lemma HeaderLine16RoundTrip(m: Box)
    requires 0 <= m.minY < 16 && 0 <= m.maxY < 16
    ensures DecodeBoxHeader(CropLine16, BoxHeader(CropLine16, m)) == StoredBounds(CropLine16, m)
  {
    Pack16(m.minY, m.maxY);
  }

  lemma Header32RoundTrip(m: Box)
    requires 0 <= m.minX < 8 && 0 <= m.maxX < 32 && 0 <= m.minY < 8 && 0 <= m.maxY < 32
    ensures DecodeBoxHeader(Crop32, BoxHeader(Crop32, m)) == StoredBounds(Crop32, m)
  {
    Pack32(m.minX, m.maxX);
    Pack32(m.minY, m.maxY);
  }

  lemma HeaderLine32RoundTrip(m: Box)
    requires 0 <= m.minY < 8 && 0 <= m.maxY < 32
    ensures DecodeBoxHeader(CropLine32, BoxHeader(CropLine32, m)) == StoredBounds(CropLine32, m)
  {
    Pack32(m.minY, m.maxY);
  }

  /** Within the scheme's size limit the masks change nothing, so the header holds the
      box itself: below 16 for Crop16; for Crop32, below 32 with minimums of at most 7. */
  lemma MaskKeepsSmallBoxes(comp: Compressor, b: Box)
    requires 0 <= b.minX && 0 <= b.maxX && 0 <= b.minY && 0 <= b.maxY
    ensures (comp == Crop16 || comp == CropLine16) && b.minX < 16 && b.maxX < 16 && b.minY < 16 && b.maxY < 16
      ==> MaskBox(comp, b) == b
    ensures (comp == Crop32 || comp == CropLine32) && b.minX <= 7 && b.maxX < 32 && b.minY <= 7 && b.maxY < 32
      ==> MaskBox(comp, b) == b
    ensures comp == Crop256 || comp == CropLine256 ==> MaskBox(comp, b) == b
  {
  }

  /** Crop32 only ever lowers a minimum and keeps a maximum below 32: on a block up to
      32 wide and high the stored box still holds the real one. */
  lemma Crop32StoredBoxContains(b: Box)
    requires 0 <= b.minX <= b.maxX < 32 && 0 <= b.minY <= b.maxY < 32
    ensures var m := MaskBox(Crop32, b);
      m.minX <= b.minX && m.maxX == b.maxX && m.minY <= b.minY && m.maxY == b.maxY
  {
  }

  // ------------------------------------------------------------------------------------
  // Line ranges.

  /** The masks of a line's (minX, maxX): at 4 bits per colour minX & 0xFE first, then
      4 bits each for CropLine16 or a saturated 3-bit minimum and a 5-bit maximum for
      CropLine32. */
  function MaskLine(comp: Compressor, bpc: int, m: (int, int)): (int, int)
  {
    var mn := if bpc == 4 then (m.0 % 256) / 2 * 2 else m.0;
    match comp
    case CropLine16 => (mn % 16, m.1 % 16)
    case CropLine32 => (Min7(mn), m.1 % 32)
    case _ => (mn, m.1)
  }

  /** The header line a line-crop scheme writes for a (masked) range. */
  function LineHeader(comp: Compressor, m: (int, int)): seq<Call>
  {
    match comp
    case CropLine16 => [ByteLine(Wrap8(m.0 * 16 + m.1))]
    case CropLine32 => [ByteLine(Wrap8(m.0 * 32 + m.1))]
    case CropLine256 => [TwoBytesLine(Wrap8(m.0), Wrap8(m.1))]
    case _ => []
  }

  function DecodeLineHeader(comp: Compressor, h: seq<Call>): seq<int>
  {
    if |h| != 1 then []
    else
      var l := h[0];
      match comp
      case CropLine16 => if l.ByteLine? then [l.a / 16, l.a % 16] else []
      case CropLine32 => if l.ByteLine? then [l.a / 32, l.a % 32] else []
      case CropLine256 => if l.TwoBytesLine? then [l.a, l.b] else []
      case _ => []
  }

  /** minX & 0xFE of a non-negative minX: even, below 256, at most minX. */
  lemma RoundEven(x: int)
    requires x >= 0
    ensures var e := (x % 256) / 2 * 2;
      0 <= e <= x && e < 256 && e % 2 == 0 && (e % 16) % 2 == 0
  {
    var e := (x % 256) / 2 * 2;
    var h := (x % 256) / 2;
    assert e == 2 * h;
    assert e % 16 == 2 * (h % 8);
  }

  /** A line header holds the masked range; at 4 bits per colour the stored minimum is
      even for CropLine16 and CropLine256, so a line starts on a byte boundary. */
  lemma LineHeaderRoundTrip(comp: Compressor, bpc: int, m: (int, int))
    requires comp.IsCropLine()
    requires 0 <= m.0 && 0 <= m.1 < 256
    ensures var k := MaskLine(comp, bpc, m);
      && (bpc == 4 || m.0 < 256 ==> DecodeLineHeader(comp, LineHeader(comp, k)) == [k.0, k.1])
      && (bpc == 4 && comp != CropLine32 ==> k.0 % 2 == 0)
      && k.0 <= m.0
  {
    var mn := if bpc == 4 then (m.0 % 256) / 2 * 2 else m.0;
    RoundEven(m.0);
    assert 0 <= mn <= m.0;
    match comp {
      case CropLine16 => LineHeader16(mn % 16, m.1 % 16);
      case CropLine32 => LineHeader32(Min7(mn), m.1 % 32);
      case CropLine256 =>
        if bpc == 4 || m.0 < 256 {
          LineHeader256(mn, m.1);
        }
    }
  }

  lemma LineHeader16(a: int, b: int)
    requires 0 <= a < 16 && 0 <= b < 16
    ensures DecodeLineHeader(CropLine16, LineHeader(CropLine16, (a, b))) == [a, b]
  {
    Pack16(a, b);
  }

  lemma LineHeader32(a: int, b: int)
    requires 0 <= a < 8 && 0 <= b < 32
    ensures DecodeLineHeader(CropLine32, LineHeader(CropLine32, (a, b))) == [a, b]
  {
    Pack32(a, b);
  }

  lemma LineHeader256(a: int, b: int)
    requires 0 <= a < 256 && 0 <= b < 256
    ensures DecodeLineHeader(CropLine256, LineHeader(CropLine256, (a, b))) == [a, b]
  {
  }
}
