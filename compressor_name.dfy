// The display name of each compressor.
module CompressorName {
  import opened Params

  /** The fixed name of a scheme. The enumeration is closed here, so the fallback name
      for an out-of-range value has no counterpart. */
  function Name(c: Compressor): (s: string)
    ensures |s| > 0
  {
    match c
    case None => "None"
    case Crop16 => "Crop16 (4-bits, max 16x16)"
    case CropLine16 => "CropLine16 (4-bits per line, max 16x16)"
    case Crop32 => "Crop32 (5-bits, max 32x32)"
    case CropLine32 => "CropLine32 (5-bits per line, max 32x32)"
    case Crop256 => "Crop256 (8-bits, max 256x256)"
    case CropLine256 => "CropLine256 (8-bits per line, max 256x256)"
    case RLE0 => "RLE0 (7-bits Run-length encoding for transparency)"
    case RLE4 => "RLE4 (4-bits Run-length encoding)"
    case RLE8 => "RLE8 (8-bits Run-length encoding)"
  }

  /** The scheme a name belongs to, if any: the reference inverse of `Name`. */
  function FromName(s: string): (r: seq<Compressor>)
    ensures |r| <= 1
  {
    if s == Name(None) then [None]
    else if s == Name(Crop16) then [Crop16]
    else if s == Name(CropLine16) then [CropLine16]
    else if s == Name(Crop32) then [Crop32]
    else if s == Name(CropLine32) then [CropLine32]
    else if s == Name(Crop256) then [Crop256]
    else if s == Name(CropLine256) then [CropLine256]
    else if s == Name(RLE0) then [RLE0]
    else if s == Name(RLE4) then [RLE4]
    else if s == Name(RLE8) then [RLE8]
    else []
  }

  /** Each name identifies its scheme: the names are pairwise distinct. */
  lemma NameRoundTrip(c: Compressor)
    ensures FromName(Name(c)) == [c]
  {
    match c {
      case None => NoneRoundTrip();
      case Crop16 => Crop16RoundTrip();
      case CropLine16 => CropLine16RoundTrip();
      case Crop32 => Crop32RoundTrip();
      case CropLine32 => CropLine32RoundTrip();
      case Crop256 => Crop256RoundTrip();
      case CropLine256 => CropLine256RoundTrip();
      case RLE0 => RLE0RoundTrip();
      case RLE4 => RLE4RoundTrip();
      case RLE8 => RLE8RoundTrip();
    }
  }

  lemma NoneRoundTrip()
    ensures FromName(Name(None)) == [None]
  {
  }

  lemma Crop16RoundTrip()
    ensures FromName(Name(Crop16)) == [Crop16]
  {
  }

  lemma CropLine16RoundTrip()
    ensures FromName(Name(CropLine16)) == [CropLine16]
  {
  }

  lemma Crop32RoundTrip()
    ensures FromName(Name(Crop32)) == [Crop32]
  {
    assert Name(Crop32) != Name(Crop16) by {
      assert Name(Crop32)[4] == '3' && Name(Crop16)[4] == '1';
    }
  }

  lemma CropLine32RoundTrip()
    ensures FromName(Name(CropLine32)) == [CropLine32]
  {
    assert Name(CropLine32) != Name(CropLine16) by {
      assert Name(CropLine32)[8] == '3' && Name(CropLine16)[8] == '1';
    }
  }

  lemma Crop256RoundTrip()
    ensures FromName(Name(Crop256)) == [Crop256]
  {
  }

  lemma CropLine256RoundTrip()
    ensures FromName(Name(CropLine256)) == [CropLine256]
  {
  }

  lemma RLE0RoundTrip()
    ensures FromName(Name(RLE0)) == [RLE0]
  {
  }

  lemma RLE4RoundTrip()
    ensures FromName(Name(RLE4)) == [RLE4]
  {
  }

  lemma RLE8RoundTrip()
    ensures FromName(Name(RLE8)) == [RLE8]
  {
    assert Name(RLE8) != Name(RLE4) by {
      assert Name(RLE8)[3] == '8' && Name(RLE4)[3] == '4';
    }
  }

  lemma NamesDistinct(c1: Compressor, c2: Compressor)
    ensures Name(c1) == Name(c2) <==> c1 == c2
  {
    NameRoundTrip(c1);
    NameRoundTrip(c2);
  }

  /** "None" names only the scheme None. */
  lemma NoneOnlyForNone(c: Compressor)
    ensures Name(c) == "None" <==> c.None?
  {
    NamesDistinct(c, None);
  }
}
