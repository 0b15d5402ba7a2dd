// The newer command line (CMSXimg): after the switches are read it fills in the default
// palette count, settles the compression scheme (automatic choice, then the search for the
// smallest output), rejects invalid parameters, applies the downgrade warnings and the
// palette clamp, and runs the exporter its output format calls for. Its exit code is the
// start address plus the size of the output, or 0 on failure.
module FrontEnd {
  import opened Types
  import opened Params
  import opened Selection
  import opened FileNames

  /** The switches that are not part of the export parameters, and the start address the
      exit code is added to. */
  datatype Options = Options(
    autoCompress: bool,
    bestCompress: bool,
    outFormat: FileFormat,
    addCopy: bool,
    startAddr: int)

  /** The depths at which the crop schemes work on boxes and the run-length schemes are
      ruled out: 1 and 2 bits per colour. */
  predicate LowDepth(bpc: int)
  {
    bpc == 1 || bpc == 2
  }

  /** The parameters are refused with exit code 1: no input name; no output name with the
      automatic format; a depth other than 1, 2, 4 or 8; a copyright file asked for that
      does not exist; transparency and opacity together; a palette count (after its
      default) below 1 at 2 or 4 bits per colour. */
  predicate Rejected(p: ExportParameters, o: Options, copyExists: bool)
  {
    || p.inFile == ""
    || (p.outFile == "" && o.outFormat == FormatAuto)
    || (p.bpc != 1 && p.bpc != 2 && p.bpc != 4 && p.bpc != 8)
    || (o.addCopy && !copyExists)
    || (p.useTrans && p.useOpacity)
    || ((p.bpc == 2 || p.bpc == 4) && DefaultedCount(p.palCount, p.palOffset, p.bpc) < 1)
  }

  /** The output name: the one given, or the input name with its extension replaced by the
      one of the named format. */
  function OutName(p: ExportParameters, fmt: FileFormat): (name: string)
    requires p.outFile != "" || fmt != FormatAuto
    ensures p.outFile != "" ==> name == p.outFile
    ensures p.outFile == "" ==> name != "" && RemoveExt(name) == RemoveExt(p.inFile)
  {
    if p.outFile != "" then p.outFile
    else
      var e := ExtFor(fmt);
      RemoveAddedExt(RemoveExt(p.inFile), e[1..]);
      assert RemoveExt(p.inFile) + e == RemoveExt(p.inFile) + "." + e[1..];
      RemoveExt(p.inFile) + e
  }

  /** The scheme before the downgrades: the one given, replaced by the automatic choice,
      replaced in turn by the best candidate of the search. */
  function Chosen(p: ExportParameters, o: Options, b: int): (c: Compressor)
    requires -1 <= b < |CompTable|
    ensures o.bestCompress ==> c == SchemeAt(b)
    ensures !o.bestCompress && o.autoCompress ==> c == AutoScheme(p, LowDepth(p.bpc))
    ensures !o.bestCompress && !o.autoCompress ==> c == p.comp
  {
    if o.bestCompress then SchemeAt(b)
    else if o.autoCompress then AutoScheme(p, LowDepth(p.bpc))
    else p.comp
  }

  /** The exit code: start address plus output size when the conversion succeeded, else 0. */
  function ExitCode(o: Options, ok: bool, size: u32): (code: int)
    ensures !ok ==> code == 0
    ensures ok ==> code - o.startAddr == size
  {
    if ok then o.startAddr + size else 0
  }

  /** The whole run after the switches are read. The trial runs of the search and the
      outcome of the conversion (whether it succeeded and how many bytes it wrote) come
      from the encoder and the image library, so they are inputs; copyExists is the answer
      of the file-system test for the copyright file. Besides the exit code the run gives
      the scheme, palette count, output name and exporter the conversion is run with. */
  method Run(p: ExportParameters, o: Options, copyExists: bool, trials: seq<Trial>, ok: bool, size: u32)
    returns (code: int, comp: Compressor, palCount: int, outFile: string, target: Target, ghost b: int)
    requires |trials| == |CompTable|
    ensures -1 <= b < |CompTable| && (o.bestCompress ==> IsBest(trials, b))
    ensures Rejected(p, o, copyExists) ==> code == 1
    ensures !Rejected(p, o, copyExists) ==> code == ExitCode(o, ok, size)
    ensures !Rejected(p, o, copyExists) ==>
      comp == Downgraded(Chosen(p, o, b), p.useTrans, LowDepth(p.bpc), p.bpc)
    ensures !Rejected(p, o, copyExists) ==>
      palCount == ClampedCount(DefaultedCount(p.palCount, p.palOffset, p.bpc), p.palOffset, p.bpc)
    ensures !Rejected(p, o, copyExists) ==>
      outFile == OutName(p, o.outFormat) && target == TargetOf(o.outFormat, outFile)
  {
    b := -1;
    comp, outFile, target := p.comp, p.outFile, TargetImage;
    palCount := DefaultPalCount(p.palCount, p.palOffset, p.bpc);
    if o.autoCompress {
      comp := AutoScheme(p, LowDepth(p.bpc));
    }
    if o.bestCompress {
      var bestSize;
      comp, bestSize, b := BestScheme(trials);
    }
    if p.inFile == "" {
      return 1, comp, palCount, outFile, target, b;
    }
    if outFile == "" {
      match o.outFormat
      case FormatC =>
        outFile := RemoveExt(p.inFile) + ".h";
      case FormatAsm =>
        outFile := RemoveExt(p.inFile) + ".asm";
      case FormatBin =>
        outFile := RemoveExt(p.inFile) + ".bin";
      case FormatAuto =>
        return 1, comp, palCount, outFile, target, b;
    }
    if p.bpc != 1 && p.bpc != 2 && p.bpc != 4 && p.bpc != 8 {
      return 1, comp, palCount, outFile, target, b;
    }
    if o.addCopy && !copyExists {
      return 1, comp, palCount, outFile, target, b;
    }
    if p.useTrans && p.useOpacity {
      return 1, comp, palCount, outFile, target, b;
    }
    if (p.bpc == 2 || p.bpc == 4) && palCount < 1 {
      return 1, comp, palCount, outFile, target, b;
    }
    comp := Downgrade(comp, p.useTrans, LowDepth(p.bpc), p.bpc);
    palCount := ClampPalCount(palCount, p.palOffset, p.bpc);
    target := TargetOf(o.outFormat, outFile);
    code := if ok then o.startAddr + size else 0;
  }

  /** Every run that is not refused ends with a scheme that suits the parameters and, at 2
      and 4 bits per colour, a palette that stays within the entries of the depth. */
  lemma AcceptedSettles(p: ExportParameters, o: Options, copyExists: bool, b: int)
    requires !Rejected(p, o, copyExists) && -1 <= b < |CompTable|
    ensures Suits(Downgraded(Chosen(p, o, b), p.useTrans, LowDepth(p.bpc), p.bpc), p.useTrans, LowDepth(p.bpc), p.bpc)
    ensures p.bpc == 2 || p.bpc == 4 ==>
      p.palOffset + ClampedCount(DefaultedCount(p.palCount, p.palOffset, p.bpc), p.palOffset, p.bpc) <= Entries(p.bpc)
  {
  }

  /** The checks come before the clamp, so a run can be accepted with an empty palette:
      at 2 bits per colour with offset 4 every accepted count ends as 0. */
  lemma AcceptedEmptyPalette(p: ExportParameters, o: Options, copyExists: bool)
    requires !Rejected(p, o, copyExists) && p.bpc == 2 && p.palOffset == 4
    ensures ClampedCount(DefaultedCount(p.palCount, p.palOffset, p.bpc), p.palOffset, p.bpc) == 0
  {
    ClampCanEmptyPalette(p.palCount);
  }

  /** Without transparency the automatic choice ends as RLE4 on a block at 4 bits per
      colour and as None otherwise. */
  lemma AutoWithoutTransparency(p: ExportParameters, o: Options, copyExists: bool, b: int)
    requires !Rejected(p, o, copyExists) && -1 <= b < |CompTable|
    requires !o.bestCompress && o.autoCompress && !p.useTrans
    ensures Downgraded(Chosen(p, o, b), p.useTrans, LowDepth(p.bpc), p.bpc) ==
      (if p.sizeX != 0 && p.sizeY != 0 && p.bpc == 4 then RLE4 else None)
  {
  }
}

// The older command line (MSXImage): the same steps with fewer depths and no palette
// offset. Only 1, 4 and 8 bits per colour are accepted, the box crop schemes belong to
// 1 bit per colour, the palette count is cut to 15, and the exit code is 0 on success and
// 1 otherwise.
module FrontEndOld {
  import opened Types
  import opened Params
  import opened Selection
  import opened FileNames

  /** The switches that are not part of the export parameters. */
  datatype Options = Options(autoCompress: bool, bestCompress: bool, outFormat: FileFormat)

  /** The parameters are refused with exit code 1: no input name, no output name (an
      absent name is the empty string), or a depth other than 1, 4 or 8. */
  predicate Rejected(p: ExportParameters)
  {
    p.inFile == "" || p.outFile == "" || (p.bpc != 1 && p.bpc != 4 && p.bpc != 8)
  }

  /** The scheme before the downgrades. */
  function Chosen(p: ExportParameters, o: Options, b: int): (c: Compressor)
    requires -1 <= b < |CompTable|
    ensures o.bestCompress ==> c == SchemeAt(b)
    ensures !o.bestCompress && o.autoCompress ==> c == AutoScheme(p, p.bpc == 1)
    ensures !o.bestCompress && !o.autoCompress ==> c == p.comp
  {
    if o.bestCompress then SchemeAt(b)
    else if o.autoCompress then AutoScheme(p, p.bpc == 1)
    else p.comp
  }

  /** The whole run after the switches are read; the trial runs and the outcome of the
      conversion are inputs as in the newer command line. */
  method Run(p: ExportParameters, o: Options, trials: seq<Trial>, ok: bool)
    returns (code: int, comp: Compressor, palCount: int, target: Target, ghost b: int)
    requires |trials| == |CompTable|
    ensures -1 <= b < |CompTable| && (o.bestCompress ==> IsBest(trials, b))
    ensures Rejected(p) ==> code == 1
    ensures !Rejected(p) ==> code == (if ok then 0 else 1)
    ensures !Rejected(p) ==> comp == Downgraded(Chosen(p, o, b), p.useTrans, p.bpc == 1, p.bpc)
    ensures !Rejected(p) ==> palCount == ClampedCountOld(p.palCount)
    ensures !Rejected(p) ==> target == TargetOf(o.outFormat, p.outFile)
  {
    b := -1;
    comp, palCount, target := p.comp, p.palCount, TargetImage;
    if o.autoCompress {
      comp := AutoScheme(p, p.bpc == 1);
    }
    if o.bestCompress {
      var bestSize;
      comp, bestSize, b := BestScheme(trials);
    }
    if p.inFile == "" || p.outFile == "" || (p.bpc != 1 && p.bpc != 4 && p.bpc != 8) {
      return 1, comp, palCount, target, b;
    }
    comp := Downgrade(comp, p.useTrans, p.bpc == 1, p.bpc);
    palCount := ClampPalCountOld(palCount);
    target := TargetOf(o.outFormat, p.outFile);
    code := if ok then 0 else 1;
  }
}
