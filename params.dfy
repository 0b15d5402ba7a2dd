// The parameter record shared by the encoder and its two command-line front ends, the
// compressor (scheme) enumeration and the whole-image normalisation the encoder applies
// before walking the block grid.
module Params {
  import opened Types

  /** The ten compression schemes, in the order of their enumeration. */
  datatype Compressor =
    | None
    | Crop16 | CropLine16
    | Crop32 | CropLine32
    | Crop256 | CropLine256
    | RLE0 | RLE4 | RLE8
  {
    /** Every crop scheme, box or per line (the crop mask). */
    predicate IsCrop()
    {
      Crop16? || CropLine16? || Crop32? || CropLine32? || Crop256? || CropLine256?
    }

    /** The per-line crop schemes (the crop-line mask). */
    predicate IsCropLine()
    {
      CropLine16? || CropLine32? || CropLine256?
    }

    /** The run-length schemes (the RLE mask). */
    predicate IsRLE()
    {
      RLE0? || RLE4? || RLE8?
    }
  }

  /** The three masks partition the schemes other than None. */
  lemma SchemeClasses(c: Compressor)
    ensures c.IsCropLine() ==> c.IsCrop()
    ensures !(c.IsCrop() && c.IsRLE())
    ensures c.None? <==> !c.IsCrop() && !c.IsRLE()
  {
  }

  datatype PaletteType = PaletteCustom | MSX1 | MSX2

  /** How numbers are rendered by the text exporters. */
  datatype DataFormat = Decimal | Hexa | HexaC | HexaAsm | HexaDollar | HexaSharp | Binary

  /** The export parameters. `palOffset` and `useOpacity` belong to the newer command line
      only; the encoder itself does not read them. */
  datatype ExportParameters = ExportParameters(
    inFile: string,
    outFile: string,
    tabName: string,
    posX: int, posY: int,
    sizeX: int, sizeY: int,
    gapX: int, gapY: int,
    numX: int, numY: int,
    bpc: int,
    useTrans: bool,
    transColor: u32,
    palType: PaletteType,
    palCount: int,
    palOffset: int,
    useOpacity: bool,
    comp: Compressor,
    dataType: DataFormat,
    skipEmpty: bool,
    addHeader: bool,
    addIndex: bool,
    addFont: bool,
    fontFirst: int, fontLast: int,
    fontX: u8, fontY: u8,
    define: bool)

  /** The default parameters; an absent file name is the empty string. */
  function DefaultParameters(): (p: ExportParameters)
    ensures p.posX == 0 && p.posY == 0 && p.sizeX == 0 && p.sizeY == 0
    ensures p.gapX == 0 && p.gapY == 0 && p.numX == 1 && p.numY == 1
    ensures p.bpc == 8 && p.palCount == 15 && p.comp == None && !p.useTrans
    ensures p.tabName == "table" && p.transColor == 0 && p.palType == MSX1
    ensures p.dataType == Hexa && !p.skipEmpty && !p.addHeader && !p.addIndex && !p.addFont
  {
    ExportParameters(
      inFile := "", outFile := "", tabName := "table",
      posX := 0, posY := 0, sizeX := 0, sizeY := 0, gapX := 0, gapY := 0,
      numX := 1, numY := 1, bpc := 8,
      useTrans := false, transColor := 0, palType := MSX1, palCount := 15,
      palOffset := 0, useOpacity := false,
      comp := None, dataType := Hexa,
      skipEmpty := false, addHeader := false, addIndex := false, addFont := false,
      fontFirst := 0, fontLast := 0, fontX := 0, fontY := 0, define := false)
  }

  /** A zero block width or height means "the whole image as one block": the position is
      reset, the block takes the image's size and the grid is 1x1. */
  function WholeImage(p: ExportParameters, imageX: nat, imageY: nat): (q: ExportParameters)
    ensures p.sizeX != 0 && p.sizeY != 0 ==> q == p
    ensures p.sizeX == 0 || p.sizeY == 0 ==>
      q.posX == 0 && q.posY == 0 && q.sizeX == imageX && q.sizeY == imageY && q.numX == 1 && q.numY == 1
    ensures q.(posX := p.posX, posY := p.posY, sizeX := p.sizeX, sizeY := p.sizeY, numX := p.numX, numY := p.numY) == p
  {
    if p.sizeX == 0 || p.sizeY == 0 then
      p.(posX := 0, posY := 0, sizeX := imageX, sizeY := imageY, numX := 1, numY := 1)
    else
      p
  }

  /** On a non-empty image the normalisation is idempotent. */
  lemma WholeImageIdempotent(p: ExportParameters, imageX: nat, imageY: nat)
    requires imageX > 0 && imageY > 0
    ensures WholeImage(WholeImage(p, imageX, imageY), imageX, imageY) == WholeImage(p, imageX, imageY)
  {
  }
}
