// The run table the encoder builds for the run-length schemes, one pixel at a time over a
// block's pixels in row-major order. RLE0 separates transparent runs from runs of any
// non-transparent colours (whose pixels it keeps); RLE4 and RLE8 cut runs of one colour.
module Rle {
  import opened Types
  import opened Params

  /** One entry of the run table: its length, the colour of its first pixel and, for an
      RLE0 run, the pixels it covers. */
  datatype Run = Run(length: int, color: u32, data: seq<u32>)

  /** The longest run each scheme can store: 7, 4 and 8 bits. */
  function MaxRunLength(comp: Compressor): (m: int)
    requires comp.IsRLE()
    ensures comp == RLE0 ==> m == 0x7F
    ensures comp == RLE4 ==> m == 0x0F
    ensures comp == RLE8 ==> m == 0xFF
  {
    match comp
    case RLE0 => 0x7F
    case RLE4 => 0x0F
    case _ => 0xFF
  }

  function Last(runs: seq<Run>): Run
    requires |runs| > 0
  {
    runs[|runs| - 1]
  }

  /** Adding one pixel to the run table: extend the last run when the pixel belongs to it
      and it is not full, otherwise open a new run of length 1. */
  function Step(comp: Compressor, trans: u32, runs: seq<Run>, rgb: u32): seq<Run>
    requires comp.IsRLE()
  {
    var maxLength := MaxRunLength(comp);
    if comp == RLE0 then
      if |runs| != 0 && rgb == trans && Last(runs).color == trans && Last(runs).length < maxLength then
        runs[|runs| - 1 := Last(runs).(length := Last(runs).length + 1)]
      else if |runs| != 0 && rgb != trans && Last(runs).color != trans && Last(runs).length < maxLength then
        runs[|runs| - 1 := Last(runs).(length := Last(runs).length + 1, data := Last(runs).data + [rgb])]
      else
        runs + [Run(1, rgb, [rgb])]
    else
      if |runs| != 0 && rgb == Last(runs).color && Last(runs).length < maxLength then
        runs[|runs| - 1 := Last(runs).(length := Last(runs).length + 1)]
      else
        runs + [Run(1, rgb, [])]
  }

  /** The run table of a pixel sequence. */
  function Runs(comp: Compressor, trans: u32, s: seq<u32>): seq<Run>
    requires comp.IsRLE()
  {
    if s == [] then [] else Step(comp, trans, Runs(comp, trans, s[..|s| - 1]), s[|s| - 1])
  }

  /** The pixels a run stands for when it is decoded. */
  function Pixels(comp: Compressor, trans: u32, r: Run): seq<u32>
  {
    if comp == RLE0 && r.color != trans then r.data
    else seq(if r.length < 0 then 0 else r.length, _ => r.color)
  }

  function Expand(comp: Compressor, trans: u32, runs: seq<Run>): seq<u32>
  {
    if runs == [] then [] else Expand(comp, trans, runs[..|runs| - 1]) + Pixels(comp, trans, Last(runs))
  }

  function TotalLength(runs: seq<Run>): int
  {
    if runs == [] then 0 else TotalLength(runs[..|runs| - 1]) + Last(runs).length
  }

  /** What every entry of the table satisfies. An RLE0 run is all transparent or all
      opaque, and an opaque one keeps exactly its pixels, starting with its colour. */
  ghost predicate GoodRun(comp: Compressor, trans: u32, r: Run)
    requires comp.IsRLE()
  {
    && 1 <= r.length <= MaxRunLength(comp)
    && (comp == RLE0 && r.color != trans ==>
          |r.data| == r.length && r.data[0] == r.color && forall x :: x in r.data ==> x != trans)
    && (comp != RLE0 ==> r.data == [])
  }

  /** Two neighbouring runs could not have been one: the first is full, or the second
      starts with a pixel the first does not take. */
  ghost predicate Split(comp: Compressor, trans: u32, r1: Run, r2: Run)
    requires comp.IsRLE()
  {
    || r1.length == MaxRunLength(comp)
    || (comp == RLE0 && (r1.color == trans) != (r2.color == trans))
    || (comp != RLE0 && r1.color != r2.color)
  }

  ghost predicate GoodTable(comp: Compressor, trans: u32, runs: seq<Run>)
    requires comp.IsRLE()
  {
    && (forall k :: 0 <= k < |runs| ==> GoodRun(comp, trans, runs[k]))
    && (forall k :: 0 < k < |runs| ==> Split(comp, trans, runs[k - 1], runs[k]))
  }

  /** Every run of the table is well formed and maximal: lengths within 1..max, RLE0 runs
      of one class, no two neighbours that could merge. */
  lemma {:induction false} RunsGood(comp: Compressor, trans: u32, s: seq<u32>)
    requires comp.IsRLE()
    ensures GoodTable(comp, trans, Runs(comp, trans, s))
    ensures s != [] <==> Runs(comp, trans, s) != []
  {
    if s != [] {
      var init := s[..|s| - 1];
      RunsGood(comp, trans, init);
      StepGood(comp, trans, Runs(comp, trans, init), s[|s| - 1]);
    }
  }

  /** One step keeps the table good and leaves it non-empty. */
  lemma StepGood(comp: Compressor, trans: u32, runs: seq<Run>, rgb: u32)
    requires comp.IsRLE() && GoodTable(comp, trans, runs)
    ensures var next := Step(comp, trans, runs, rgb); GoodTable(comp, trans, next) && next != []
  {
    var next := Step(comp, trans, runs, rgb);
    if |next| == |runs| {
      ReplaceLastGood(comp, trans, runs, Last(next));
    } else {
      SnocGood(comp, trans, runs, Last(next));
    }
  }

  /** A good last run of the same colour may replace the last run of a good table. */
  lemma ReplaceLastGood(comp: Compressor, trans: u32, runs: seq<Run>, r: Run)
    requires comp.IsRLE() && GoodTable(comp, trans, runs) && |runs| > 0
    requires GoodRun(comp, trans, r) && r.color == Last(runs).color
    ensures GoodTable(comp, trans, runs[|runs| - 1 := r])
  {
  }

  /** A good run that could not have joined the last one may follow it. */
  lemma SnocGood(comp: Compressor, trans: u32, runs: seq<Run>, r: Run)
    requires comp.IsRLE() && GoodTable(comp, trans, runs)
    requires GoodRun(comp, trans, r) && (|runs| > 0 ==> Split(comp, trans, Last(runs), r))
    ensures GoodTable(comp, trans, runs + [r])
  {
  }

  lemma LastRunGood(comp: Compressor, trans: u32, s: seq<u32>)
    requires comp.IsRLE()
    ensures |Runs(comp, trans, s)| > 0 ==> GoodRun(comp, trans, Last(Runs(comp, trans, s)))
  {
    RunsGood(comp, trans, s);
  }

  lemma ExpandSnoc(comp: Compressor, trans: u32, runs: seq<Run>, r: Run)
    ensures Expand(comp, trans, runs + [r]) == Expand(comp, trans, runs) + Pixels(comp, trans, r)
    ensures TotalLength(runs + [r]) == TotalLength(runs) + r.length
  {
    assert (runs + [r])[..|runs|] == runs;
  }

  /** Replacing the last run replaces its pixels at the end of the decoding. */
  lemma ExpandReplaceLast(comp: Compressor, trans: u32, runs: seq<Run>, r: Run)
    requires |runs| > 0
    ensures Expand(comp, trans, runs[|runs| - 1 := r]) == Expand(comp, trans, runs[..|runs| - 1]) + Pixels(comp, trans, r)
    ensures Expand(comp, trans, runs) == Expand(comp, trans, runs[..|runs| - 1]) + Pixels(comp, trans, Last(runs))
  {
    var n := |runs|;
    assert runs[n - 1 := r] == runs[..n - 1] + [r];
    assert runs == runs[..n - 1] + [Last(runs)];
    ExpandSnoc(comp, trans, runs[..n - 1], r);
    ExpandSnoc(comp, trans, runs[..n - 1], Last(runs));
  }

  /** A run of one colour grown by a pixel of that colour decodes to one more pixel. */
  lemma RepeatSnoc(n: nat, c: u32)
    ensures seq(n + 1, _ => c) == seq(n, _ => c) + [c]
  {
  }

  /** One step of the table appends exactly the new pixel to the decoding. */
  lemma StepExpand(comp: Compressor, trans: u32, runs: seq<Run>, rgb: u32)
    requires comp.IsRLE()
    requires |runs| > 0 ==> GoodRun(comp, trans, Last(runs))
    ensures Expand(comp, trans, Step(comp, trans, runs, rgb)) == Expand(comp, trans, runs) + [rgb]
  {
    var next := Step(comp, trans, runs, rgb);
    if |next| == |runs| {
      var last := Last(runs);
      if comp == RLE0 && last.color != trans {
        GrowExpand(comp, trans, runs, last.(length := last.length + 1, data := last.data + [rgb]), rgb);
      } else {
        GrowRepeat(comp, trans, last);
        GrowExpand(comp, trans, runs, last.(length := last.length + 1), rgb);
      }
    } else {
      ExpandSnoc(comp, trans, runs, Run(1, rgb, if comp == RLE0 then [rgb] else []));
    }
  }

  /** Replacing the last run by one that decodes to one more pixel adds that pixel. */
  lemma GrowExpand(comp: Compressor, trans: u32, runs: seq<Run>, r: Run, rgb: u32)
    requires |runs| > 0
    requires Pixels(comp, trans, r) == Pixels(comp, trans, Last(runs)) + [rgb]
    ensures Expand(comp, trans, runs[|runs| - 1 := r]) == Expand(comp, trans, runs) + [rgb]
  {
    ExpandReplaceLast(comp, trans, runs, r);
  }

  /** A run of one colour grown by one decodes to one more pixel of that colour. */
  lemma GrowRepeat(comp: Compressor, trans: u32, r: Run)
    requires !(comp == RLE0 && r.color != trans) && r.length >= 0
    ensures Pixels(comp, trans, r.(length := r.length + 1)) == Pixels(comp, trans, r) + [r.color]
  {
    RepeatSnoc(r.length, r.color);
  }

  /** Decoding the table gives back the scanned pixels: the encoding is lossless. */
  lemma {:induction false} RunsExpand(comp: Compressor, trans: u32, s: seq<u32>)
    requires comp.IsRLE()
    ensures Expand(comp, trans, Runs(comp, trans, s)) == s
  {
    if s != [] {
      var init := s[..|s| - 1];
      var rgb := s[|s| - 1];
      RunsExpand(comp, trans, init);
      RunsSnocExpand(comp, trans, init, rgb, s);
    }
  }

  lemma RunsSnocExpand(comp: Compressor, trans: u32, init: seq<u32>, rgb: u32, s: seq<u32>)
    requires comp.IsRLE() && s == init + [rgb]
    requires Expand(comp, trans, Runs(comp, trans, init)) == init
    ensures Expand(comp, trans, Runs(comp, trans, s)) == s
  {
    assert s[..|s| - 1] == init;
    LastRunGood(comp, trans, init);
    StepExpand(comp, trans, Runs(comp, trans, init), rgb);
  }

  /** The run lengths add up to the number of scanned pixels. */
  lemma {:induction false} RunsTotalLength(comp: Compressor, trans: u32, s: seq<u32>)
    requires comp.IsRLE()
    ensures TotalLength(Runs(comp, trans, s)) == |s|
  {
    if s != [] {
      var init := s[..|s| - 1];
      RunsTotalLength(comp, trans, init);
      StepTotal(comp, trans, Runs(comp, trans, init), s[|s| - 1]);
    }
  }

  /** One step adds one to the total length. */
  lemma StepTotal(comp: Compressor, trans: u32, runs: seq<Run>, rgb: u32)
    requires comp.IsRLE()
    ensures TotalLength(Step(comp, trans, runs, rgb)) == TotalLength(runs) + 1
  {
    var next := Step(comp, trans, runs, rgb);
    if |next| == |runs| {
      assert next[..|next| - 1] == runs[..|runs| - 1];
      assert Last(next).length == Last(runs).length + 1;
    } else {
      assert next[..|next| - 1] == runs;
    }
  }
}
