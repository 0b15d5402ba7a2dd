// How the command line settles the compression scheme and the palette size before the
// image is encoded: the automatic choice, the search for the smallest output, the
// downgrades of schemes that do not suit the other parameters and the palette clamps.
// Both front ends share these rules; where they differ the difference is a parameter.
module Selection {
  import opened Types
  import opened Params

  // ------------------------------------------------------------------------------------
  // The automatic choice.

  /** The largest block side a crop scheme can describe. */
  function Limit(c: Compressor): (l: int)
    requires c.IsCrop()
    ensures l == 16 || l == 32 || l == 256
  {
    if c == Crop16 || c == CropLine16 then 16
    else if c == Crop32 || c == CropLine32 then 32
    else 256
  }

  /** Both block sides are at most n. */
  predicate Fits(p: ExportParameters, n: int)
  {
    p.sizeX <= n && p.sizeY <= n
  }

  /** The scheme the automatic option selects. boxCrop says whether the depth calls for
      the box crop schemes rather than the per-line ones: at 1 or 2 bits per colour in the
      newer front end, at 1 bit only in the older one. */
  function AutoScheme(p: ExportParameters, boxCrop: bool): (c: Compressor)
    ensures p.sizeX == 0 || p.sizeY == 0 ==> c == None
    ensures p.sizeX != 0 && p.sizeY != 0 && !p.useTrans ==> c == (if p.bpc == 4 then RLE4 else None)
    ensures p.sizeX != 0 && p.sizeY != 0 && p.useTrans ==>
      (c.IsCrop() <==> Fits(p, 256)) && (c.IsCrop() || c == None)
    ensures c.IsCrop() ==> (c.IsCropLine() <==> !boxCrop)
    ensures c.IsCrop() ==> Fits(p, Limit(c))
    ensures c.IsCrop() && Limit(c) > 16 ==> !Fits(p, 16)
    ensures c.IsCrop() && Limit(c) > 32 ==> !Fits(p, 32)
  {
    if p.sizeX == 0 || p.sizeY == 0 then None
    else if p.useTrans then
      if boxCrop then
        if Fits(p, 16) then Crop16
        else if Fits(p, 32) then Crop32
        else if Fits(p, 256) then Crop256
        else None
      else
        if Fits(p, 16) then CropLine16
        else if Fits(p, 32) then CropLine32
        else if Fits(p, 256) then CropLine256
        else None
    else if p.bpc == 4 then RLE4
    else None
  }

  /** The automatic crop scheme is the one of smallest side both block sides fit: no crop
      scheme of the same kind with a smaller limit would do. */
  lemma AutoSchemeSmallest(p: ExportParameters, boxCrop: bool, d: Compressor)
    requires AutoScheme(p, boxCrop).IsCrop() && d.IsCrop()
    requires d.IsCropLine() == AutoScheme(p, boxCrop).IsCropLine()
    requires Fits(p, Limit(d))
    ensures Limit(AutoScheme(p, boxCrop)) <= Limit(d)
  {
  }

  // ------------------------------------------------------------------------------------
  // The search for the scheme with the smallest output.

  /** The candidates of the search, in the order they are tried. */
  const CompTable: seq<Compressor> :=
    [None, Crop16, CropLine16, Crop32, CropLine32, Crop256, CropLine256, RLE0, RLE4, RLE8]

  /** Every scheme is a candidate, once. */
  lemma CompTableComplete(c: Compressor)
    ensures c in CompTable
    ensures forall i, j :: 0 <= i < j < |CompTable| ==> CompTable[i] != CompTable[j]
  {
  }

  /** What a trial run of candidate i gives: whether the scheme is compatible with the
      parameters, whether the count-only run succeeded and how many bytes it counted. The
      compatibility test and the encoder are not part of this module, so their answers are
      inputs. */
  datatype Trial = Trial(compatible: bool, succeeded: bool, size: u32)

  predicate Usable(t: Trial)
  {
    t.compatible && t.succeeded
  }

  /** The search as written. The current best size 0 means "nothing yet", so a usable
      candidate of size 0 is replaced by the next usable one, whatever its size. */
  method BestSchemeAsWritten(trials: seq<Trial>) returns (bestComp: Compressor, bestSize: u32, ghost b: int)
    requires |trials| == |CompTable|
    ensures b == -1 ==> bestComp == None && bestSize == 0 && forall j :: 0 <= j < |trials| ==> !Usable(trials[j])
    ensures b != -1 ==>
      (0 <= b < |trials| && Usable(trials[b]) && bestComp == CompTable[b] && bestSize == trials[b].size)
    ensures b != -1 ==> forall j :: b < j < |trials| && Usable(trials[j]) ==> 0 < bestSize <= trials[j].size
    ensures b != -1 && (forall j :: 0 <= j < |trials| && Usable(trials[j]) ==> trials[j].size != 0) ==>
      forall j :: 0 <= j < b && Usable(trials[j]) ==> bestSize < trials[j].size
  {
    bestSize := 0;
    bestComp := None;
    b := -1;
    var i := 0;
    while i < |CompTable|
      invariant 0 <= i <= |CompTable|
      invariant b == -1 ==> bestComp == None && bestSize == 0 && forall j :: 0 <= j < i ==> !Usable(trials[j])
      invariant b != -1 ==>
        (0 <= b < i && Usable(trials[b]) && bestComp == CompTable[b] && bestSize == trials[b].size)
      invariant b != -1 ==> forall j :: b < j < i && Usable(trials[j]) ==> 0 < bestSize <= trials[j].size
      invariant b != -1 && (forall j :: 0 <= j < |trials| && Usable(trials[j]) ==> trials[j].size != 0) ==>
        forall j :: 0 <= j < b && Usable(trials[j]) ==> bestSize < trials[j].size
    {
      var t := trials[i];
      if t.compatible && t.succeeded {
        if bestSize == 0 || t.size < bestSize {
          bestSize := t.size;
          bestComp := CompTable[i];
          b := i;
        }
      }
      i := i + 1;
    }
  }

  /** Sizes 5, 0 and 7 for the first three candidates: the search as written keeps the
      third, although the second produced no bytes at all and the first was smaller. */
  lemma ZeroSizeIsUnset()
    ensures var ts := [Trial(true, true, 5), Trial(true, true, 0), Trial(true, true, 7)] +
                      seq(7, _ => Trial(false, false, 0));
      forall comp, size, b | BestSchemeSpec(ts, comp, size, b) :: comp == CropLine16 && size == 7
  {
    var ts := [Trial(true, true, 5), Trial(true, true, 0), Trial(true, true, 7)] +
              seq(7, _ => Trial(false, false, 0));
    forall comp, size, b | BestSchemeSpec(ts, comp, size, b)
      ensures comp == CropLine16 && size == 7
    {
      assert Usable(ts[0]) && Usable(ts[1]) && Usable(ts[2]);
      assert forall j :: 3 <= j < |ts| ==> !Usable(ts[j]);
      assert b == 2;
    }
  }

  /** What the search as written guarantees, for stating facts about its result. */
  ghost predicate BestSchemeSpec(trials: seq<Trial>, bestComp: Compressor, bestSize: u32, b: int)
    requires |trials| == |CompTable|
  {
    && (b == -1 ==> bestComp == None && bestSize == 0 && forall j :: 0 <= j < |trials| ==> !Usable(trials[j]))
    && (b != -1 ==> 0 <= b < |trials| && Usable(trials[b]) && bestComp == CompTable[b] && bestSize == trials[b].size)
    && (b != -1 ==> forall j :: b < j < |trials| && Usable(trials[j]) ==> 0 < bestSize <= trials[j].size)
  }

  /** Candidate b is the first usable one of smallest size, 0 included; b = -1 when no
      candidate is usable. */
  predicate IsBest(trials: seq<Trial>, b: int)
  {
    && (b == -1 ==> forall j :: 0 <= j < |trials| ==> !Usable(trials[j]))
    && (b != -1 ==> 0 <= b < |trials| && Usable(trials[b]))
    && (b != -1 ==> forall j :: 0 <= j < |trials| && Usable(trials[j]) ==> trials[b].size <= trials[j].size)
    && (b != -1 ==> forall j :: 0 <= j < b && Usable(trials[j]) ==> trials[b].size < trials[j].size)
  }

  /** The scheme of candidate b, None when there is none. */
  function SchemeAt(b: int): (c: Compressor)
    requires -1 <= b < |CompTable|
    ensures b != -1 ==> c == CompTable[b]
  {
    if b == -1 then None else CompTable[b]
  }

  /** At most one candidate is the best: the search has a single answer. */
  lemma IsBestUnique(trials: seq<Trial>, b1: int, b2: int)
    requires IsBest(trials, b1) && IsBest(trials, b2)
    ensures b1 == b2
  {
  }

  /** The search with "nothing yet" kept apart from the size: it keeps the first usable
      candidate of smallest size, 0 included. */
  method BestScheme(trials: seq<Trial>) returns (bestComp: Compressor, bestSize: u32, ghost b: int)
    requires |trials| == |CompTable|
    ensures IsBest(trials, b) && -1 <= b < |trials|
    ensures bestComp == SchemeAt(b)
    ensures bestSize == if b == -1 then 0 else trials[b].size
  {
    bestSize := 0;
    bestComp := None;
    b := -1;
    var found := false;
    var i := 0;
    while i < |CompTable|
      invariant 0 <= i <= |CompTable|
      invariant found <==> b != -1
      invariant b == -1 ==> bestComp == None && bestSize == 0 && forall j :: 0 <= j < i ==> !Usable(trials[j])
      invariant b != -1 ==>
        (0 <= b < i && Usable(trials[b]) && bestComp == CompTable[b] && bestSize == trials[b].size)
      invariant b != -1 ==> forall j :: 0 <= j < i && Usable(trials[j]) ==> bestSize <= trials[j].size
      invariant b != -1 ==> forall j :: 0 <= j < b && Usable(trials[j]) ==> bestSize < trials[j].size
    {
      var t := trials[i];
      if t.compatible && t.succeeded {
        if !found || t.size < bestSize {
          bestSize := t.size;
          bestComp := CompTable[i];
          b := i;
          found := true;
        }
      }
      i := i + 1;
    }
  }

  // ------------------------------------------------------------------------------------
  // The downgrades of schemes the other parameters rule out.

  /** The scheme suits the parameters: no crop scheme and no RLE0 without a transparent
      colour, no run-length scheme at the low depths, no RLE4 at 8 bits per colour. */
  predicate Suits(c: Compressor, useTrans: bool, lowDepth: bool, bpc: int)
  {
    && (!useTrans ==> !c.IsCrop() && c != RLE0)
    && (lowDepth ==> !c.IsRLE())
    && (bpc == 8 ==> c != RLE4)
  }

  /** The scheme left after the warnings that replace an unsuitable one: without a
      transparent colour crop schemes and RLE0 give way to None, at the low depths every
      run-length scheme does, and at 8 bits per colour RLE4 gives way to RLE8. */
  function Downgraded(comp: Compressor, useTrans: bool, lowDepth: bool, bpc: int): (c: Compressor)
    ensures Suits(c, useTrans, lowDepth, bpc)
    ensures Suits(comp, useTrans, lowDepth, bpc) ==> c == comp
    ensures c == comp || c == None || (c == RLE8 && comp == RLE4 && bpc == 8)
  {
    if !useTrans && (comp.IsCrop() || comp == RLE0) then None
    else if lowDepth && comp.IsRLE() then None
    else if bpc == 8 && comp == RLE4 then RLE8
    else comp
  }

  /** The warnings one after the other, each looking at the scheme the previous ones left.
      lowDepth is set at 1 or 2 bits per colour in the newer front end and at 1 bit in the
      older one. */
  method Downgrade(comp: Compressor, useTrans: bool, lowDepth: bool, bpc: int) returns (c: Compressor)
    ensures c == Downgraded(comp, useTrans, lowDepth, bpc)
  {
    c := comp;
    if !useTrans && c.IsCrop() {
      c := None;
    }
    if !useTrans && c == RLE0 {
      c := None;
    }
    if lowDepth && c.IsRLE() {
      c := None;
    }
    if bpc == 8 && c == RLE4 {
      c := RLE8;
    }
  }

  // ------------------------------------------------------------------------------------
  // The palette size.

  /** The palette entries available at a depth after the offset: 4 at 2 bits per colour,
      16 at 4 bits. */
  function Entries(bpc: int): (n: int)
    requires bpc == 2 || bpc == 4
    ensures n == 4 || n == 16
  {
    if bpc == 2 then 4 else 16
  }

  /** The count after the default: a negative count asks for every entry after the offset
      at 2 and 4 bits per colour; other depths and non-negative counts are kept. */
  function DefaultedCount(palCount: int, palOffset: int, bpc: int): (n: int)
    ensures palCount < 0 && (bpc == 2 || bpc == 4) ==> palOffset + n == Entries(bpc)
    ensures palCount >= 0 || (bpc != 2 && bpc != 4) ==> n == palCount
  {
    if palCount < 0 && (bpc == 2 || bpc == 4) then Entries(bpc) - palOffset else palCount
  }

  method DefaultPalCount(palCount: int, palOffset: int, bpc: int) returns (n: int)
    ensures n == DefaultedCount(palCount, palOffset, bpc)
  {
    n := palCount;
    if n < 0 {
      if bpc == 2 {
        n := 4 - palOffset;
      } else if bpc == 4 {
        n := 16 - palOffset;
      }
    }
  }

  /** The count after the newer clamp: an offset and count that overrun the entries of the
      depth are cut back to end at the last entry. */
  function ClampedCount(palCount: int, palOffset: int, bpc: int): (n: int)
    ensures (bpc == 2 || bpc == 4) ==> palOffset + n <= Entries(bpc)
    ensures (bpc == 2 || bpc == 4) && palOffset + palCount > Entries(bpc) ==> palOffset + n == Entries(bpc)
    ensures (bpc != 2 && bpc != 4) || palOffset + palCount <= Entries(bpc) ==> n == palCount
  {
    if (bpc == 2 || bpc == 4) && palOffset + palCount > Entries(bpc) then Entries(bpc) - palOffset
    else palCount
  }

  method ClampPalCount(palCount: int, palOffset: int, bpc: int) returns (n: int)
    ensures n == ClampedCount(palCount, palOffset, bpc)
  {
    n := palCount;
    if bpc == 2 && palOffset + n > 4 {
      n := 4 - palOffset;
    }
    if bpc == 4 && palOffset + n > 16 {
      n := 16 - palOffset;
    }
  }

  /** The clamp does not keep the count positive: with an offset of 4 at 2 bits per colour
      every count that passed the check for a count below 1 is cut to 0. */
  lemma ClampCanEmptyPalette(palCount: int)
    requires DefaultedCount(palCount, 4, 2) >= 1
    ensures ClampedCount(DefaultedCount(palCount, 4, 2), 4, 2) == 0
  {
  }

  /** The count after the older clamp: at most 15 colours, and a smaller count is kept. */
  function ClampedCountOld(palCount: int): (n: int)
    ensures n <= 15 && n <= palCount
    ensures palCount <= 15 ==> n == palCount
  {
    if palCount > 15 then 15 else palCount
  }

  method ClampPalCountOld(palCount: int) returns (n: int)
    ensures n == ClampedCountOld(palCount)
  {
    n := palCount;
    if n > 15 {
      n := 15;
    }
  }
}
