// The bytes of a run-length encoded block: one line per run of the table. RLE0 writes a
// transparent run as 0x80 + length and an opaque run as its length followed by its
// pixels (one GRB8 byte each, or packed two 4-bit indices per byte); RLE4 writes
// [length:4|index:4]; RLE8 writes the length and then one colour byte. A reader that
// expands those bytes gets back the colour code of every pixel of the block.
module RleTable {
  import opened Types
  import opened Params
  import opened Color
  import opened ColorMap
  import opened Exporter
  import opened ExportCalls
  import opened Block
  import opened Rle
  import opened Pack

  /** The colour codes of some pixels at the block's depth. */
  function RunValues(c: Ctx, data: seq<u32>): (s: seq<u8>)
    requires PalOk(c)
    ensures |s| == |data|
    ensures forall k :: 0 <= k < |s| ==> s[k] == PixelValue(c, data[k])
    ensures ValuesOk(c.p.bpc, s)
  {
    seq(|data|, k requires 0 <= k < |data| => PixelValue(c, data[k]))
  }

  /** The packed pixels of an opaque RLE0 run at 4 bits per colour: each pixel's own
      index, two per byte, from a clear byte. */
  function OpaqueRun4(c: Ctx, data: seq<u32>): seq<Call>
    requires PalOk(c) && c.p.bpc == 4
  {
    var v := RunValues(c, data);
    Fold4(v, 0, |v| - 1, |v|).calls
  }

  /** The same packing as the loop is written: every pixel takes the index c4 of the
      run's colour, and the byte starts from the uninitialised value garbage. RunPack is
      the state after l of the n pixels. */
  function RunPack(c4: u8, garbage: u8, n: nat, l: nat): Acc
    requires c4 < 16 && l <= n
  {
    if l == 0 then Acc([], garbage)
    else Step4(RunPack(c4, garbage, n, l - 1), c4, l - 1, l - 1 == n - 1)
  }

  /** After l of n pixels the loop as written has put out one data byte per completed
      pair, and one more for a last odd pixel. */
  lemma {:induction false} RunPackCount(c4: u8, garbage: u8, n: nat, l: nat)
    requires c4 < 16 && l <= n
    ensures var t := RunPack(c4, garbage, n, l).calls;
      |t| == (if l == n then (n + 1) / 2 else l / 2) && forall k :: 0 <= k < |t| ==> t[k].ByteData?
  {
    if l > 0 {
      RunPackCount(c4, garbage, n, l - 1);
    }
  }

  /** The packed pixels of an opaque RLE0 run at 4 bits per colour as the encoder writes
      them: n pixels give (n+1)/2 data bytes. */
  function OpaqueRun4AsWritten(c: Ctx, r: Run): (t: seq<Call>)
    requires PalOk(c) && c.p.bpc == 4
    ensures |t| == (|r.data| + 1) / 2
    ensures forall k :: 0 <= k < |t| ==> t[k].ByteData?
  {
    RunPackCount(C4(c, r.color), c.garbage, |r.data|, |r.data|);
    RunPack(C4(c, r.color), c.garbage, |r.data|, |r.data|).calls
  }

  /** One GRB8 byte per pixel of an opaque RLE0 run at 8 bits per colour. */
  function GbrCalls(trans: u32, data: seq<u32>): (t: seq<Call>)
    ensures |t| == |data|
    ensures forall k :: 0 <= k < |t| ==> t[k] == ByteData(GetGBR8(data[k], trans))
  {
    seq(|data|, k requires 0 <= k < |data| => ByteData(GetGBR8(data[k], trans)))
  }

  /** The data bytes of one run of the table, between its line begin and end, as the
      encoder writes them: an opaque RLE0 run at 4 bits per colour is packed as written. */
  function RunData(c: Ctx, r: Run): (t: seq<Call>)
    requires PalOk(c)
    ensures forall k :: 0 <= k < |t| ==> t[k].ByteData?
    ensures c.p.comp == RLE0 && r.color == c.trans ==> |t| == 1
    ensures c.p.comp == RLE0 && r.color != c.trans && c.p.bpc == 4 ==> |t| == 1 + (|r.data| + 1) / 2
    ensures c.p.comp == RLE0 && r.color != c.trans && c.p.bpc == 8 ==> |t| == 1 + |r.data|
    ensures c.p.comp == RLE4 && c.p.bpc == 4 ==> |t| == 1
    ensures c.p.comp == RLE8 && (c.p.bpc == 4 || c.p.bpc == 8) ==> |t| == 2
    ensures !c.p.comp.IsRLE() ==> t == []
  {
    var len := Wrap8(r.length);
    match c.p.comp
    case RLE0 =>
      if r.color == c.trans then [ByteData(Wrap8(0x80 + len))]
      else
        [ByteData(len)] +
        (if c.p.bpc == 4 then OpaqueRun4AsWritten(c, r)
         else if c.p.bpc == 8 then GbrCalls(c.trans, r.data)
         else [])
    case RLE4 =>
      if c.p.bpc == 4 then [ByteData(Wrap8((r.length % 16) * 16 + C4(c, r.color)))] else []
    case RLE8 =>
      if c.p.bpc == 4 then [ByteData(len), ByteData(C4(c, r.color))]
      else if c.p.bpc == 8 then [ByteData(len), ByteData(GetGBR8(r.color, c.trans))]
      else []
    case _ => []
  }

  /** The data bytes of one run with the opaque RLE0 4-bit packing corrected: each
      pixel's own index, from a clear byte. Every other run is written as RunData. */
  function FixedRunData(c: Ctx, r: Run): seq<Call>
    requires PalOk(c)
  {
    if c.p.comp == RLE0 && c.p.bpc == 4 && r.color != c.trans
    then [ByteData(Wrap8(r.length))] + OpaqueRun4(c, r.data)
    else RunData(c, r)
  }

  /** The run a reader finds in the bytes as written: at 4 bits per colour every pixel
      of an opaque RLE0 run carries the run's colour. Other runs are unchanged. */
  function AsRead(c: Ctx, r: Run): Run
  {
    if c.p.comp == RLE0 && c.p.bpc == 4 && r.color != c.trans
    then Run(r.length, r.color, seq(|r.data|, _ => r.color))
    else r
  }

  function AsReadRuns(c: Ctx, runs: seq<Run>): (rs: seq<Run>)
    ensures |rs| == |runs|
    ensures forall k :: 0 <= k < |rs| ==> rs[k] == AsRead(c, runs[k])
  {
    seq(|runs|, k requires 0 <= k < |runs| => AsRead(c, runs[k]))
  }

  /** The calls for a run table, one line per run in table order. */
  function RunsCalls(c: Ctx, runs: seq<Run>): seq<Call>
    requires PalOk(c)
  {
    if runs == [] then []
    else RunsCalls(c, runs[..|runs| - 1]) + ([LineBegin] + RunData(c, Last(runs)) + [LineEnd])
  }

  // ------------------------------------------------------------------------------------
  // Reading a table back.

  /** n 4-bit values from packed bytes, high nibble first. */
  function Unpack(bs: seq<int>, n: nat): seq<int>
    decreases n
  {
    if n == 0 || bs == [] then []
    else if n == 1 then [bs[0] / 16]
    else [bs[0] / 16, bs[0] % 16] + Unpack(bs[1..], n - 2)
  }

  /** The byte count of the run whose first byte is n. */
  function RunSize(comp: Compressor, bpc: int, n: nat): nat
  {
    if comp == RLE4 then 1
    else if comp == RLE8 then 2
    else if n >= 0x80 then 1
    else if bpc == 4 then 1 + (n + 1) / 2
    else 1 + n
  }

  /** The codes of the run held in bs, which starts with byte n. */
  function RunCodes(comp: Compressor, bpc: int, n: nat, bs: seq<int>): seq<int>
    requires |bs| == RunSize(comp, bpc, n)
  {
    if comp == RLE4 then seq(n / 16, _ => n % 16)
    else if comp == RLE8 then seq(n, _ => bs[1])
    else if n >= 0x80 then seq(n - 0x80, _ => 0)
    else if bpc == 4 then Unpack(bs[1..], n)
    else bs[1..]
  }

  /** The colour codes a reader expands a run table into; a truncated last run is dropped. */
  function DecodeTable(comp: Compressor, bpc: int, bs: seq<int>): seq<int>
    decreases |bs|
  {
    if bs == [] then []
    else
      var n := if bs[0] < 0 then 0 else bs[0];
      var m := RunSize(comp, bpc, n);
      if |bs| < m then []
      else RunCodes(comp, bpc, n, bs[..m]) + DecodeTable(comp, bpc, bs[m..])
  }

  /** The code a pixel decodes to: 0 for RLE0's transparent runs, its colour code otherwise. */
  function Code(c: Ctx, rgb: u32): int
    requires PalOk(c)
  {
    if c.p.comp == RLE0 && rgb == c.trans then 0 else PixelValue(c, rgb)
  }

  function Codes(c: Ctx, s: seq<u32>): (r: seq<int>)
    requires PalOk(c)
    ensures |r| == |s|
  {
    seq(|s|, k requires 0 <= k < |s| => Code(c, s[k]))
  }

  /** The table's bytes with the corrected packing, run by run from the front. */
  function FixedTableBytes(c: Ctx, runs: seq<Run>): seq<u8>
    requires PalOk(c)
  {
    if runs == [] then [] else Bytes(FixedRunData(c, runs[0])) + FixedTableBytes(c, runs[1..])
  }

  /** The depths a run table can be read back at. */
  predicate Readable(c: Ctx)
  {
    c.p.comp.IsRLE() && (c.p.bpc == 4 || (c.p.bpc == 8 && c.p.comp != RLE4))
  }
}

// What the run table's bytes mean: a reader gets the pixels' codes back.
module RleTableFacts {
  import opened Types
  import opened Params
  import opened Color
  import opened ColorMap
  import opened Exporter
  import opened ExportCalls
  import opened Block
  import opened Rle
  import opened Pack
  import opened RleTable

  /** A line's begin and end add no bytes. */
  lemma LineBytes(t: seq<Call>, d: seq<Call>)
    ensures Bytes(t + ([LineBegin] + d + [LineEnd])) == Bytes(t) + Bytes(d)
  {
    var x := [LineBegin] + d;
    var y := x + [LineEnd];
    assert Bytes([LineBegin]) == [] by { assert [LineBegin][..0] == []; }
    BytesAppend([LineBegin], d);
    assert Bytes(x) == Bytes(d);
    BytesSnoc(x, LineEnd);
    assert Bytes(y) == Bytes(d);
    BytesAppend(t, y);
  }

  lemma BytesOfOne(a: u8)
    ensures Bytes([ByteData(a)]) == [a]
  {
    BytesSnoc([], ByteData(a));
    assert [] + [ByteData(a)] == [ByteData(a)];
  }

  lemma BytesOfTwo(a: u8, b: u8)
    ensures Bytes([ByteData(a), ByteData(b)]) == [a, b]
  {
    BytesOfOne(a);
    BytesSnoc([ByteData(a)], ByteData(b));
    assert [ByteData(a)] + [ByteData(b)] == [ByteData(a), ByteData(b)];
  }

  /** The pixels of an opaque RLE0 run have their colour codes as codes. */
  lemma OpaqueCodes(c: Ctx, r: Run)
    requires PalOk(c) && c.p.comp == RLE0 && GoodRun(RLE0, c.trans, r) && r.color != c.trans
    ensures Codes(c, r.data) == RunValues(c, r.data)
  {
    forall k | 0 <= k < |r.data|
      ensures Codes(c, r.data)[k] == RunValues(c, r.data)[k]
    {
      assert r.data[k] in r.data;
    }
  }

  lemma CodesAppend(c: Ctx, a: seq<u32>, b: seq<u32>)
    requires PalOk(c)
    ensures Codes(c, a + b) == Codes(c, a) + Codes(c, b)
  {
  }

  lemma {:induction false} TableBytesSnoc(c: Ctx, runs: seq<Run>, r: Run)
    requires PalOk(c)
    ensures FixedTableBytes(c, runs + [r]) == FixedTableBytes(c, runs) + Bytes(FixedRunData(c, r))
    decreases |runs|
  {
    if runs == [] {
      assert (runs + [r])[1..] == [];
    } else {
      assert (runs + [r])[1..] == runs[1..] + [r];
      TableBytesSnoc(c, runs[1..], r);
    }
  }

  /** Line begin and end add no bytes. With a clear leftover byte (or wherever the
      as-written packing is not used) the table's calls are the corrected bytes of the
      runs a reader finds in them. */
  lemma {:induction false} RunsCallsBytes(c: Ctx, runs: seq<Run>)
    requires PalOk(c) && (c.garbage == 0 || !(c.p.comp == RLE0 && c.p.bpc == 4))
    ensures Bytes(RunsCalls(c, runs)) == FixedTableBytes(c, AsReadRuns(c, runs))
    decreases |runs|
  {
    if runs != [] {
      var init := runs[..|runs| - 1];
      var seen := AsReadRuns(c, runs);
      RunsCallsBytes(c, init);
      LineBytes(RunsCalls(c, init), RunData(c, Last(runs)));
      RunDataAsRead(c, Last(runs));
      assert seen[..|seen| - 1] == AsReadRuns(c, init);
      TableBytesLast(c, seen);
    }
  }

  lemma TableBytesLast(c: Ctx, runs: seq<Run>)
    requires PalOk(c) && runs != []
    ensures FixedTableBytes(c, runs) == FixedTableBytes(c, runs[..|runs| - 1]) + Bytes(FixedRunData(c, Last(runs)))
  {
    var init, r := runs[..|runs| - 1], Last(runs);
    assert runs == init + [r];
    TableBytesSnoc(c, init, r);
  }

  lemma {:induction false} ExpandCons(comp: Compressor, trans: u32, r: Run, rest: seq<Run>)
    ensures Expand(comp, trans, [r] + rest) == Pixels(comp, trans, r) + Expand(comp, trans, rest)
    decreases |rest|
  {
    if rest != [] {
      var init := rest[..|rest| - 1];
      var s := [r] + rest;
      assert s[..|s| - 1] == [r] + init;
      assert Last(s) == Last(rest);
      ExpandCons(comp, trans, r, init);
    } else {
      assert [r] + rest == [] + [r];
      ExpandSnoc(comp, trans, [], r);
    }
  }

  lemma NibblesCons(x: int, y: int, s: seq<int>)
    ensures Nibbles([x, y] + s) == [x * 16 + y] + Nibbles(s)
  {
    var l := Nibbles([x, y] + s);
    var r := [x * 16 + y] + Nibbles(s);
    assert |l| == |r|;
    forall k | 0 <= k < |l|
      ensures l[k] == r[k]
    {
      if k > 0 {
        assert ([x, y] + s)[2 * k] == s[2 * (k - 1)];
      }
    }
  }

  /** Unpacking the nibbles of 4-bit values gives the values back. */
  lemma {:induction false} UnpackNibbles(s: seq<int>)
    requires forall k :: 0 <= k < |s| ==> 0 <= s[k] < 16
    ensures Unpack(Nibbles(s), |s|) == s
    decreases |s|
  {
    if |s| == 1 {
      assert Nibbles(s) == [s[0] * 16];
    } else if |s| >= 2 {
      assert s == [s[0], s[1]] + s[2..];
      NibblesCons(s[0], s[1], s[2..]);
      UnpackNibbles(s[2..]);
      assert Nibbles(s)[1..] == Nibbles(s[2..]);
    }
  }

  /** The packing of a run's pixels is the nibbles of their indices. */
  lemma OpaqueRun4Nibbles(c: Ctx, data: seq<u32>)
    requires PalOk(c) && c.p.bpc == 4
    ensures OpaqueRun4(c, data) == DataCalls(Nibbles(RunValues(c, data)))
  {
    var v := RunValues(c, data);
    Fold4Packed(v, 0, |v| - 1, |v|);
    assert v[0..|v|] == v;
  }

  lemma DataCallsNibbleBytes(v: seq<u8>)
    requires ValuesOk(4, v)
    ensures Bytes(DataCalls(Nibbles(v))) == Nibbles(v)
  {
    NibblesBytes(v);
    DataCallsBytes(Nibbles(v));
  }

  lemma GbrCallsBytes(trans: u32, data: seq<u32>)
    ensures Bytes(GbrCalls(trans, data)) == seq(|data|, k requires 0 <= k < |data| => GetGBR8(data[k], trans))
  {
    var bs := seq(|data|, k requires 0 <= k < |data| => GetGBR8(data[k], trans) as int);
    assert GbrCalls(trans, data) == DataCalls(bs);
    DataCallsBytes(bs);
  }

  /** A complete first run is read on its own, and reading goes on after it. */
  lemma DecodeCons(comp: Compressor, bpc: int, head: seq<int>, rest: seq<int>)
    requires head != [] && head[0] >= 0 && |head| == RunSize(comp, bpc, head[0])
    ensures DecodeTable(comp, bpc, head + rest) == RunCodes(comp, bpc, head[0], head) + DecodeTable(comp, bpc, rest)
  {
    var bs := head + rest;
    assert bs[..|head|] == head;
    assert bs[|head|..] == rest;
  }

  /** The bytes of a transparent RLE0 run: 0x80 plus its length. */
  lemma TransparentRunBytes(c: Ctx, r: Run)
    requires PalOk(c) && c.p.comp == RLE0 && GoodRun(RLE0, c.trans, r) && r.color == c.trans
    ensures Bytes(FixedRunData(c, r)) == [0x80 + r.length]
  {
    assert FixedRunData(c, r) == [ByteData(0x80 + r.length)];
    BytesOfOne(0x80 + r.length);
  }

  /** The calls of an opaque RLE0 run: its length, then its pixels. */
  lemma OpaqueRunData(c: Ctx, r: Run)
    requires PalOk(c) && c.p.comp == RLE0 && r.color != c.trans && 0 <= r.length < 0x80
    ensures c.p.bpc == 4 ==> FixedRunData(c, r) == [ByteData(r.length)] + OpaqueRun4(c, r.data)
    ensures c.p.bpc == 8 ==> FixedRunData(c, r) == [ByteData(r.length)] + GbrCalls(c.trans, r.data)
  {
  }

  /** The bytes of an opaque RLE0 run: its length, then its pixels' codes, packed in
      nibbles at 4 bits per colour. */
  lemma OpaqueRunBytes(c: Ctx, r: Run) returns (body: seq<int>)
    requires PalOk(c) && Readable(c) && c.p.comp == RLE0
    requires GoodRun(RLE0, c.trans, r) && r.color != c.trans
    ensures Bytes(FixedRunData(c, r)) == [r.length] + body
    ensures c.p.bpc == 4 ==> body == Nibbles(RunValues(c, r.data))
    ensures c.p.bpc == 8 ==> body == RunValues(c, r.data)
  {
    if c.p.bpc == 4 {
      OpaqueBytes4(c, r);
      body := Nibbles(RunValues(c, r.data));
    } else {
      OpaqueBytes8(c, r);
      body := RunValues(c, r.data);
    }
  }

  lemma OpaqueBytes4(c: Ctx, r: Run)
    requires PalOk(c) && c.p.comp == RLE0 && c.p.bpc == 4
    requires GoodRun(RLE0, c.trans, r) && r.color != c.trans
    ensures Bytes(FixedRunData(c, r)) == [r.length as u8] + Nibbles(RunValues(c, r.data))
  {
    var v := RunValues(c, r.data);
    OpaqueRunData(c, r);
    OpaqueRun4Nibbles(c, r.data);
    DataCallsNibbleBytes(v);
    LengthThen(r.length, OpaqueRun4(c, r.data));
  }

  lemma OpaqueBytes8(c: Ctx, r: Run)
    requires PalOk(c) && c.p.comp == RLE0 && c.p.bpc == 8
    requires GoodRun(RLE0, c.trans, r) && r.color != c.trans
    ensures Bytes(FixedRunData(c, r)) == [r.length as u8] + RunValues(c, r.data)
  {
    OpaqueRunData(c, r);
    GbrCallsBytes(c.trans, r.data);
    GbrValues(c, r.data);
    LengthThen(r.length, GbrCalls(c.trans, r.data));
  }

  /** At 8 bits per colour a pixel's value is its GRB8 byte. */
  lemma GbrValues(c: Ctx, data: seq<u32>)
    requires PalOk(c) && c.p.bpc == 8
    ensures RunValues(c, data) == seq(|data|, k requires 0 <= k < |data| => GetGBR8(data[k], c.trans))
  {
  }

  /** A length byte in front of some calls comes out in front of their bytes. */
  lemma LengthThen(n: u8, t: seq<Call>)
    ensures Bytes([ByteData(n)] + t) == [n] + Bytes(t)
  {
    BytesAppend([ByteData(n)], t);
    BytesOfOne(n);
  }

  lemma Rle4Data(c: Ctx, r: Run)
    requires PalOk(c) && c.p.comp == RLE4 && c.p.bpc == 4 && 1 <= r.length <= 15
    ensures FixedRunData(c, r) == [ByteData(r.length * 16 + C4(c, r.color))]
  {
    var b := (r.length % 16) * 16 + C4(c, r.color);
    assert r.length % 16 == r.length;
    WrapByte(b);
  }

  lemma WrapByte(b: int)
    requires 0 <= b < 0x100
    ensures Wrap8(b) == b
  {
  }

  lemma Rle8Data(c: Ctx, r: Run)
    requires PalOk(c) && c.p.comp == RLE8 && (c.p.bpc == 4 || c.p.bpc == 8) && 1 <= r.length <= 255
    ensures FixedRunData(c, r) == [ByteData(r.length), ByteData(PixelValue(c, r.color))]
  {
  }

  /** The bytes of an RLE4 or RLE8 run. */
  lemma ColourRunBytes(c: Ctx, r: Run)
    requires PalOk(c) && Readable(c) && c.p.comp != RLE0 && GoodRun(c.p.comp, c.trans, r)
    ensures var v := PixelValue(c, r.color);
      Bytes(FixedRunData(c, r)) == if c.p.comp == RLE4 then [r.length * 16 + v] else [r.length, v]
  {
    var v := PixelValue(c, r.color);
    if c.p.comp == RLE4 {
      Rle4Data(c, r);
      BytesOfOne(r.length * 16 + v);
    } else {
      Rle8Data(c, r);
      BytesOfTwo(r.length, v);
    }
  }

  /** A transparent RLE0 run reads back as its length in zeros. */
  lemma DecodeTransparentRun(c: Ctx, r: Run, rest: seq<int>)
    requires PalOk(c) && c.p.comp == RLE0 && GoodRun(RLE0, c.trans, r) && r.color == c.trans
    ensures DecodeTable(RLE0, c.p.bpc, Bytes(FixedRunData(c, r)) + rest)
         == Codes(c, Pixels(RLE0, c.trans, r)) + DecodeTable(RLE0, c.p.bpc, rest)
  {
    var head := [0x80 + r.length];
    TransparentRunBytes(c, r);
    DecodeCons(RLE0, c.p.bpc, head, rest);
    TransparentCodes(c, r, head);
  }

  /** A transparent run's byte reads back as its length in zeros, the code of its pixels. */
  lemma TransparentCodes(c: Ctx, r: Run, head: seq<int>)
    requires PalOk(c) && c.p.comp == RLE0 && 1 <= r.length < 0x80 && r.color == c.trans
    requires head == [0x80 + r.length]
    ensures |head| == RunSize(RLE0, c.p.bpc, head[0])
    ensures RunCodes(RLE0, c.p.bpc, head[0], head) == Codes(c, Pixels(RLE0, c.trans, r))
  {
    var zeros := seq(r.length, _ => 0);
    assert RunCodes(RLE0, c.p.bpc, head[0], head) == zeros;
    assert Codes(c, Pixels(RLE0, c.trans, r)) == zeros;
  }

  /** An opaque RLE0 run reads back as the codes of its pixels. */
  lemma DecodeOpaqueRun(c: Ctx, r: Run, rest: seq<int>)
    requires PalOk(c) && Readable(c) && c.p.comp == RLE0
    requires GoodRun(RLE0, c.trans, r) && r.color != c.trans
    ensures DecodeTable(RLE0, c.p.bpc, Bytes(FixedRunData(c, r)) + rest)
         == Codes(c, Pixels(RLE0, c.trans, r)) + DecodeTable(RLE0, c.p.bpc, rest)
  {
    var head := OpaqueHead(c, r);
    DecodeCons(RLE0, c.p.bpc, head, rest);
  }

  /** The bytes of an opaque RLE0 run form one complete run of the table, which reads
      back as the codes of the run's pixels. */
  lemma OpaqueHead(c: Ctx, r: Run) returns (head: seq<int>)
    requires PalOk(c) && Readable(c) && c.p.comp == RLE0
    requires GoodRun(RLE0, c.trans, r) && r.color != c.trans
    ensures Bytes(FixedRunData(c, r)) == head && head != [] && head[0] == r.length
    ensures |head| == RunSize(RLE0, c.p.bpc, head[0])
    ensures RunCodes(RLE0, c.p.bpc, head[0], head) == Codes(c, Pixels(RLE0, c.trans, r))
  {
    OpaqueCodes(c, r);
    var body := OpaqueRunBytes(c, r);
    head := [r.length] + body;
    assert head[1..] == body;
    if c.p.bpc == 4 {
      OpaqueNibblesBack(c, r, head);
    }
  }

  /** At 4 bits per colour the run's bytes hold its length then its nibble pairs, and
      unpacking gives back its indices. */
  lemma OpaqueNibblesBack(c: Ctx, r: Run, head: seq<int>)
    requires PalOk(c) && c.p.bpc == 4 && 0 <= r.length < 0x80 && |r.data| == r.length
    requires head == [r.length] + Nibbles(RunValues(c, r.data))
    ensures |head| == RunSize(RLE0, 4, head[0])
    ensures RunCodes(RLE0, 4, head[0], head) == RunValues(c, r.data)
  {
    var v := RunValues(c, r.data);
    assert head[1..] == Nibbles(v);
    UnpackNibbles(v);
  }

  /** An RLE4 or RLE8 run reads back as its length in copies of its colour's code. */
  lemma DecodeColourRun(c: Ctx, r: Run, rest: seq<int>)
    requires PalOk(c) && Readable(c) && c.p.comp != RLE0
    requires GoodRun(c.p.comp, c.trans, r)
    ensures DecodeTable(c.p.comp, c.p.bpc, Bytes(FixedRunData(c, r)) + rest)
         == Codes(c, Pixels(c.p.comp, c.trans, r)) + DecodeTable(c.p.comp, c.p.bpc, rest)
  {
    var v := PixelValue(c, r.color);
    ColourRunBytes(c, r);
    var head: seq<int> := if c.p.comp == RLE4 then [r.length * 16 + v] else [r.length, v];
    DecodeCons(c.p.comp, c.p.bpc, head, rest);
    ColourRunCodes(c, r, head);
  }

  lemma ColourRunCodes(c: Ctx, r: Run, head: seq<int>)
    requires PalOk(c) && Readable(c) && c.p.comp != RLE0 && 1 <= r.length <= MaxRunLength(c.p.comp)
    requires head == if c.p.comp == RLE4 then [r.length * 16 + PixelValue(c, r.color)] else [r.length, PixelValue(c, r.color)]
    ensures |head| == RunSize(c.p.comp, c.p.bpc, head[0])
    ensures RunCodes(c.p.comp, c.p.bpc, head[0], head) == Codes(c, Pixels(c.p.comp, c.trans, r))
  {
    var v := PixelValue(c, r.color);
    if c.p.comp == RLE4 {
      assert (r.length * 16 + v) / 16 == r.length && (r.length * 16 + v) % 16 == v;
    }
  }

  lemma DecodeRun(c: Ctx, r: Run, rest: seq<int>)
    requires PalOk(c) && Readable(c) && GoodRun(c.p.comp, c.trans, r)
    ensures DecodeTable(c.p.comp, c.p.bpc, Bytes(FixedRunData(c, r)) + rest)
         == Codes(c, Pixels(c.p.comp, c.trans, r)) + DecodeTable(c.p.comp, c.p.bpc, rest)
  {
    if c.p.comp != RLE0 {
      DecodeColourRun(c, r, rest);
    } else if r.color == c.trans {
      DecodeTransparentRun(c, r, rest);
    } else {
      DecodeOpaqueRun(c, r, rest);
    }
  }

  /** Reading back a table of good runs gives the codes of the pixels it stands for. */
  lemma {:induction false} DecodeTableBytes(c: Ctx, runs: seq<Run>)
    requires PalOk(c) && Readable(c)
    requires forall k :: 0 <= k < |runs| ==> GoodRun(c.p.comp, c.trans, runs[k])
    ensures DecodeTable(c.p.comp, c.p.bpc, FixedTableBytes(c, runs)) == Codes(c, Expand(c.p.comp, c.trans, runs))
    decreases |runs|
  {
    if runs != [] {
      var r, rest := runs[0], runs[1..];
      GoodTail(c.p.comp, c.trans, runs);
      DecodeTableBytes(c, rest);
      DecodeConsRun(c, r, rest);
      assert runs == [r] + rest;
    }
  }

  /** Every run of a good table's tail is good, and so is its head. */
  lemma GoodTail(comp: Compressor, trans: u32, runs: seq<Run>)
    requires comp.IsRLE() && runs != []
    requires forall k :: 0 <= k < |runs| ==> GoodRun(comp, trans, runs[k])
    ensures GoodRun(comp, trans, runs[0])
    ensures forall k :: 0 <= k < |runs[1..]| ==> GoodRun(comp, trans, runs[1..][k])
  {
    forall k | 0 <= k < |runs[1..]| ensures GoodRun(comp, trans, runs[1..][k]) {
      assert runs[1..][k] == runs[k + 1];
    }
  }

  /** A good run in front of a table that reads back correctly keeps it reading back. */
  lemma DecodeConsRun(c: Ctx, r: Run, rest: seq<Run>)
    requires PalOk(c) && Readable(c) && GoodRun(c.p.comp, c.trans, r)
    requires DecodeTable(c.p.comp, c.p.bpc, FixedTableBytes(c, rest)) == Codes(c, Expand(c.p.comp, c.trans, rest))
    ensures DecodeTable(c.p.comp, c.p.bpc, FixedTableBytes(c, [r] + rest)) == Codes(c, Expand(c.p.comp, c.trans, [r] + rest))
  {
    var comp, trans := c.p.comp, c.trans;
    var runs := [r] + rest;
    assert runs[0] == r && runs[1..] == rest;
    DecodeRun(c, r, FixedTableBytes(c, rest));
    ExpandCons(comp, trans, r, rest);
    CodesAppend(c, Pixels(comp, trans, r), Expand(comp, trans, rest));
  }

  /** With the corrected packing, the run table of any pixel sequence reads back as the
      codes of those pixels. */
  lemma RunTableRoundTrip(c: Ctx, s: seq<u32>)
    requires PalOk(c) && Readable(c)
    ensures DecodeTable(c.p.comp, c.p.bpc, FixedTableBytes(c, Runs(c.p.comp, c.trans, s))) == Codes(c, s)
  {
    var runs := Runs(c.p.comp, c.trans, s);
    RunsGood(c.p.comp, c.trans, s);
    DecodeTableBytes(c, runs);
    RunsExpand(c.p.comp, c.trans, s);
  }

  // ------------------------------------------------------------------------------------
  // Reading back the table as the encoder writes it.

  /** From a clear byte, the loop as written packs n copies of index x exactly as the
      corrected loop packs n pixels of index x. */
  lemma {:induction false} RunPackIsFold4(x: u8, n: nat, l: nat)
    requires x < 16 && l <= n
    ensures ValuesOk(4, seq(n, _ => x))
    ensures RunPack(x, 0, n, l) == Fold4(seq(n, _ => x), 0, n - 1, l)
  {
    if l > 0 {
      RunPackIsFold4(x, n, l - 1);
    }
  }

  /** With a clear leftover byte, an opaque run packed as written is the corrected packing
      of a run whose pixels all have the run's colour. */
  lemma AsWrittenIsColourRun(c: Ctx, r: Run)
    requires PalOk(c) && c.p.bpc == 4 && c.garbage == 0
    ensures OpaqueRun4AsWritten(c, r) == OpaqueRun4(c, seq(|r.data|, _ => r.color))
  {
    var n, x := |r.data|, C4(c, r.color);
    var v := RunValues(c, seq(n, _ => r.color));
    assert v == seq(n, _ => x);
    RunPackIsFold4(x, n, n);
  }

  /** The bytes written for a run are the corrected bytes of the run a reader finds. */
  lemma RunDataAsRead(c: Ctx, r: Run)
    requires PalOk(c) && (c.garbage == 0 || !(c.p.comp == RLE0 && c.p.bpc == 4))
    ensures RunData(c, r) == FixedRunData(c, AsRead(c, r))
  {
    if c.p.comp == RLE0 && c.p.bpc == 4 && r.color != c.trans {
      AsWrittenIsColourRun(c, r);
    }
  }

  /** A run a reader finds in a good run is good. */
  lemma AsReadGood(c: Ctx, r: Run)
    requires c.p.comp.IsRLE() && GoodRun(c.p.comp, c.trans, r)
    ensures GoodRun(c.p.comp, c.trans, AsRead(c, r))
  {
    if c.p.comp == RLE0 && c.p.bpc == 4 && r.color != c.trans {
      var d := seq(|r.data|, _ => r.color);
      forall x | x in d
        ensures x != c.trans
      {
        var i :| 0 <= i < |d| && d[i] == x;
      }
    }
  }

  /** As the encoder writes it, with a clear leftover byte, the run table of a pixel
      sequence reads back as the codes of the runs a reader finds: at 4 bits per colour
      every pixel of an opaque RLE0 run comes back as the code of the run's first colour,
      and every other pixel as its own code. */
  lemma WrittenTableReadsBack(c: Ctx, s: seq<u32>)
    requires PalOk(c) && Readable(c) && (c.garbage == 0 || !(c.p.comp == RLE0 && c.p.bpc == 4))
    ensures var runs := Runs(c.p.comp, c.trans, s);
      DecodeTable(c.p.comp, c.p.bpc, Bytes(RunsCalls(c, runs)))
        == Codes(c, Expand(c.p.comp, c.trans, AsReadRuns(c, runs)))
  {
    var runs := Runs(c.p.comp, c.trans, s);
    var seen := AsReadRuns(c, runs);
    RunsGood(c.p.comp, c.trans, s);
    forall k | 0 <= k < |seen|
      ensures GoodRun(c.p.comp, c.trans, seen[k])
    {
      AsReadGood(c, runs[k]);
    }
    RunsCallsBytes(c, runs);
    DecodeTableBytes(c, seen);
  }

  /** Outside opaque RLE0 runs at 4 bits per colour the table as written is lossless:
      RLE4, RLE8 and RLE0 at 8 bits read back as the codes of every pixel. */
  lemma WrittenTableRoundTrip(c: Ctx, s: seq<u32>)
    requires PalOk(c) && Readable(c) && !(c.p.comp == RLE0 && c.p.bpc == 4)
    ensures DecodeTable(c.p.comp, c.p.bpc, Bytes(RunsCalls(c, Runs(c.p.comp, c.trans, s)))) == Codes(c, s)
  {
    var runs := Runs(c.p.comp, c.trans, s);
    WrittenTableReadsBack(c, s);
    assert AsReadRuns(c, runs) == runs;
    RunsExpand(c.p.comp, c.trans, s);
  }

  /** The bytes of an opaque RLE0 run at 4 bits per colour as written, from a clear
      leftover byte: its length, then the run colour's index packed into both nibbles of
      every byte, a last odd pixel alone in a high nibble. */
  lemma WrittenOpaqueBytes4(c: Ctx, r: Run)
    requires PalOk(c) && c.p.comp == RLE0 && c.p.bpc == 4 && c.garbage == 0
    requires GoodRun(RLE0, c.trans, r) && r.color != c.trans
    ensures Bytes(RunData(c, r)) == [r.length as u8] + Nibbles(seq(r.length, _ => C4(c, r.color)))
  {
    var x := C4(c, r.color);
    RunDataAsRead(c, r);
    AsReadGood(c, r);
    OpaqueBytes4(c, AsRead(c, r));
    assert RunValues(c, AsRead(c, r).data) == seq(r.length, _ => x);
  }

  // ------------------------------------------------------------------------------------
  // The RLE0 loop at 4 bits per colour as written.

  /** Two steps of the loop as written on index x from a clear byte. */
  lemma RunPackTwo(x: u8)
    requires x < 16
    ensures RunPack(x, 0, 2, 2) == Acc([ByteData(x * 16 + x)], 0)
  {
    NibblePair(x, x);
    assert RunPack(x, 0, 2, 1) == Acc([], x * 16);
  }

  /** The corrected packing of two indices x then y. */
  lemma OpaqueRun4Two(c: Ctx, data: seq<u32>)
    requires PalOk(c) && c.p.bpc == 4 && |data| == 2
    ensures OpaqueRun4(c, data) == [ByteData(C4(c, data[0]) * 16 + C4(c, data[1]))]
  {
    var x := C4(c, data[0]);
    var y := C4(c, data[1]);
    OpaqueRun4Nibbles(c, data);
    assert RunValues(c, data) == [x, y];
    NibblePairCall(x, y);
  }

  /** Two indices below 16 go out as one byte, the first in the high nibble. */
  lemma NibblePairCall(x: u8, y: u8)
    requires x < 16 && y < 16
    ensures DataCalls(Nibbles([x, y])) == [ByteData(x * 16 + y)]
  {
    var n: int := x as int * 16 + y as int;
    assert Nibbles([x as int, y as int]) == [n];
    OneByteCall(n);
  }

  /** Writing one value that fits a byte writes that byte. */
  lemma OneByteCall(n: int)
    requires 0 <= n < 0x100
    ensures DataCalls([n]) == [ByteData(n as u8)]
  {
    assert Wrap8(n) == n;
  }

  /** Two pixels with different indices in one opaque run: the loop as written packs the
      run's first index twice; the corrected packing keeps both. */
  lemma FirstColourRepeated(c: Ctx, r: Run)
    requires PalOk(c) && c.p.bpc == 4 && c.garbage == 0
    requires |r.data| == 2 && r.color == r.data[0]
    requires C4(c, r.data[0]) != C4(c, r.data[1])
    ensures var x := C4(c, r.data[0]); var y := C4(c, r.data[1]);
      OpaqueRun4AsWritten(c, r) == [ByteData(x * 16 + x)] &&
      OpaqueRun4(c, r.data) == [ByteData(x * 16 + y)] &&
      OpaqueRun4AsWritten(c, r) != OpaqueRun4(c, r.data)
  {
    var x := C4(c, r.data[0]);
    var y := C4(c, r.data[1]);
    RunPackTwo(x);
    OpaqueRun4Two(c, r.data);
    assert x * 16 + x != x * 16 + y;
  }

  /** A one-pixel opaque run: the byte as written carries the uninitialised value's bits
      (garbage 1 and index 0 give 0x01 where a clear byte gives 0x00). */
  lemma UninitialisedByte(c: Ctx, r: Run)
    requires PalOk(c) && c.p.bpc == 4 && c.garbage == 1
    requires r.data == [r.color] && C4(c, r.color) == 0
    ensures OpaqueRun4AsWritten(c, r) == [ByteData(1)]
    ensures OpaqueRun4(c, r.data) == [ByteData(0)]
  {
    assert RunPack(0, 1, 1, 1) == Acc([ByteData(1)], 0);
    OpaqueRun4Nibbles(c, r.data);
    assert RunValues(c, r.data) == [0];
    assert Nibbles([0]) == [0];
  }
}
