// The exporters: one write interface, four implementations (C text, assembler text,
// raw binary, count-only dummy). Every implementation adds the same number of bytes to
// its running total for the same call, and the binary one appends exactly those bytes.
// The text the C and assembler exporters render is not modelled; each exporter records
// the calls it received in a ghost trace, against which its state is specified.
module ExportCalls {
  import opened Types
  import opened Params

  datatype Kind = C | Asm | Bin | Dummy

  /** One call of the write interface, with the numeric arguments that reach the output.
      Table names and comments only affect rendered text and are not kept. */
  datatype Call =
    | Header
    | TableBegin
    | SpriteHeader(number: int)
    | CommentLine
    | ByteLine(a: u8)
    | TwoBytesLine(a: u8, b: u8)
    | FourBytesLine(a: u8, b: u8, c: u8, d: u8)
    | WordLine(w: u16)
    | TwoWordsLine(w1: u16, w2: u16)
    | LineBegin
    | ByteData(data: u8)
    | BitsData(data: u8)
    | LineEnd
    | TableEnd

  /** A 16-bit word as the binary exporter writes it: low byte first. */
  function WordBytes(w: u16): (bs: seq<u8>)
    ensures |bs| == 2
    ensures bs[0] as int + 0x100 * bs[1] as int == w
    ensures bs[0] == w % 0x100
  {
    [w % 0x100, w / 0x100]
  }

  /** The bytes the binary exporter appends for a call. */
  function CallBytes(c: Call): seq<u8>
  {
    match c
    case ByteLine(a) => [a]
    case TwoBytesLine(a, b) => [a, b]
    case FourBytesLine(a, b, c, d) => [a, b, c, d]
    case WordLine(w) => WordBytes(w)
    case TwoWordsLine(w1, w2) => WordBytes(w1) + WordBytes(w2)
    case ByteData(d) => [d]
    case BitsData(d) => [d]
    case _ => []
  }

  /** The amount every exporter adds to its total for a call: the same literal in the C,
      assembler, binary and dummy classes. It is the number of bytes the call stands for. */
  function Increment(c: Call): nat
  {
    match c
    case ByteLine(_) => 1
    case TwoBytesLine(_, _) => 2
    case FourBytesLine(_, _, _, _) => 4
    case WordLine(_) => 2
    case TwoWordsLine(_, _) => 4
    case ByteData(_) => 1
    case BitsData(_) => 1
    case _ => 0
  }

  /** The literal each exporter adds is the number of bytes the binary one appends, at
      most four. */
  lemma IncrementBytes(c: Call)
    ensures Increment(c) == |CallBytes(c)| <= 4
  {
  }

  /** The number of bytes a sequence of calls stands for. */
  function Size(t: seq<Call>): nat
  {
    if t == [] then 0 else Size(t[..|t| - 1]) + Increment(t[|t| - 1])
  }

  /** The bytes a sequence of calls stands for, in call order. */
  function Bytes(t: seq<Call>): seq<u8>
  {
    if t == [] then [] else Bytes(t[..|t| - 1]) + CallBytes(t[|t| - 1])
  }

  lemma SizeSnoc(t: seq<Call>, c: Call)
    ensures Size(t + [c]) == Size(t) + Increment(c)
  {
    assert (t + [c])[..|t|] == t;
  }

  lemma BytesSnoc(t: seq<Call>, c: Call)
    ensures Bytes(t + [c]) == Bytes(t) + CallBytes(c)
  {
    assert (t + [c])[..|t|] == t;
  }

  /** The size of a concatenation is the sum of the sizes. */
  lemma {:induction false} SizeAppend(t1: seq<Call>, t2: seq<Call>)
    ensures Size(t1 + t2) == Size(t1) + Size(t2)
    decreases |t2|
  {
    if t2 == [] {
      assert t1 + t2 == t1;
    } else {
      var init := t2[..|t2| - 1];
      var last := t2[|t2| - 1];
      assert t2 == init + [last];
      assert t1 + t2 == (t1 + init) + [last];
      SizeAppend(t1, init);
      SizeSnoc(t1 + init, last);
      SizeSnoc(init, last);
    }
  }

  /** The bytes of a concatenation are the concatenated bytes. */
  lemma {:induction false} BytesAppend(t1: seq<Call>, t2: seq<Call>)
    ensures Bytes(t1 + t2) == Bytes(t1) + Bytes(t2)
    decreases |t2|
  {
    if t2 == [] {
      assert t1 + t2 == t1;
    } else {
      var init := t2[..|t2| - 1];
      var last := t2[|t2| - 1];
      assert t2 == init + [last];
      assert t1 + t2 == (t1 + init) + [last];
      calc {
        Bytes(t1 + t2);
        { BytesSnoc(t1 + init, last); }
        Bytes(t1 + init) + CallBytes(last);
        { BytesAppend(t1, init); }
        (Bytes(t1) + Bytes(init)) + CallBytes(last);
        { ByteSeqAssoc(Bytes(t1), Bytes(init), CallBytes(last)); }
        Bytes(t1) + (Bytes(init) + CallBytes(last));
        { BytesSnoc(init, last); }
        Bytes(t1) + Bytes(t2);
      }
    }
  }

  lemma ByteSeqAssoc(a: seq<u8>, b: seq<u8>, c: seq<u8>)
    ensures (a + b) + c == a + (b + c)
  {
  }

  /** The byte count of a call sequence is the length of the bytes it stands for. */
  lemma {:induction false} BytesLength(t: seq<Call>)
    ensures |Bytes(t)| == Size(t)
  {
    if t != [] {
      BytesLength(t[..|t| - 1]);
      IncrementBytes(t[|t| - 1]);
    }
  }

  /** Adding to a wrapped total wraps the same as adding to the exact total. */
  lemma Wrap32Add(x: int, n: int)
    ensures Wrap32(Wrap32(x) + n) == Wrap32(x + n)
  {
    var q := x / 0x1_0000_0000;
    assert x == q * 0x1_0000_0000 + Wrap32(x);
    assert Wrap32(x) + n == (x + n) - q * 0x1_0000_0000;
  }

  /** What an exporter holds after the calls t: the 32-bit total of their sizes and, in
      the binary kind, their bytes. */
  ghost predicate Counts(total: int, out: seq<u8>, kind: Kind, t: seq<Call>)
  {
    total == Wrap32(Size(t)) && out == (if kind == Bin then Bytes(t) else [])
  }

  /** One more call: the total grows by its size n, wrapping at 2^32, and the binary
      output by its bytes. */
  lemma CountsSnoc(total: int, out: seq<u8>, kind: Kind, t: seq<Call>, c: Call, bytes: seq<u8>, n: int)
    requires Counts(total, out, kind, t) && bytes == CallBytes(c) && n == Increment(c)
    ensures Counts(Wrap32(total + n), if kind == Bin then out + bytes else out, kind, t + [c])
  {
    TotalSnoc(total, t, c, n);
    OutSnoc(out, kind, t, c, bytes);
  }

  /** Counts, stated for every sequence equal to t, so that Size and Bytes are unfolded
      only where a proof asks for Counts of a particular sequence. */
  ghost predicate Holds(total: int, out: seq<u8>, kind: Kind, t: seq<Call>)
  {
    forall t' :: t' == t ==> Counts(total, out, kind, t')
  }

  lemma HoldsSnoc(total: int, out: seq<u8>, kind: Kind, t: seq<Call>, c: Call, bytes: seq<u8>, n: int)
    requires Holds(total, out, kind, t) && bytes == CallBytes(c) && n == Increment(c)
    ensures Holds(Wrap32(total + n), if kind == Bin then out + bytes else out, kind, t + [c])
  {
    assert Counts(total, out, kind, t);
    CountsSnoc(total, out, kind, t, c, bytes, n);
  }

  lemma TotalSnoc(total: int, t: seq<Call>, c: Call, n: int)
    requires total == Wrap32(Size(t)) && n == Increment(c)
    ensures Wrap32(total + n) == Wrap32(Size(t + [c]))
  {
    SizeSnoc(t, c);
    Wrap32Add(Size(t), n);
  }

  lemma OutSnoc(out: seq<u8>, kind: Kind, t: seq<Call>, c: Call, bytes: seq<u8>)
    requires out == (if kind == Bin then Bytes(t) else []) && bytes == CallBytes(c)
    ensures (if kind == Bin then out + bytes else out) == (if kind == Bin then Bytes(t + [c]) else [])
  {
    BytesSnoc(t, c);
  }
}

// The exporter object and the number formats of its text kinds.
module Exporter {
  import opened Types
  import opened Params
  import opened ExportCalls

  /** How a text exporter renders a number, or no format for the binary kinds. */
  datatype NumberFormat = NoFormat | Format(pattern: string)

  /** The printf pattern for one number of `bytes` bytes. */
  function GetNumberFormat(k: Kind, f: DataFormat, bytes: u8): (r: NumberFormat)
    ensures r.NoFormat? <==> k == Bin || k == Dummy
    ensures k == C ==> (r == Format("%3u") <==> f == Decimal)
    ensures k == C && f != Decimal ==> r == Format(if bytes == 1 then "0x%02X" else "0x%04X")
    ensures k == Asm && (f == Hexa || f == HexaC) ==> r == Format(if bytes == 1 then "0x%02X" else "0x%04X")
    ensures k == Asm ==> (r == Format("%3u") <==> f == Decimal || f == Binary)
    ensures k == Asm && f == HexaAsm ==> r == Format(if bytes == 1 then "0%02Xh" else "0%04Xh")
    ensures k == Asm && f == HexaDollar ==> r == Format(if bytes == 1 then "$%02X" else "$%04X")
    ensures k == Asm && f == HexaSharp ==> r == Format("#%02X")
  {
    match k
    case C =>
      (match f
       case Decimal => Format("%3u")
       case Binary => if bytes == 1 then Format("0x%02X") else Format("0x%04X")
       case _ => if bytes == 1 then Format("0x%02X") else Format("0x%04X"))
    case Asm =>
      (match f
       case Hexa => if bytes == 1 then Format("0x%02X") else Format("0x%04X")
       case HexaC => if bytes == 1 then Format("0x%02X") else Format("0x%04X")
       case HexaAsm => if bytes == 1 then Format("0%02Xh") else Format("0%04Xh")
       case HexaDollar => if bytes == 1 then Format("$%02X") else Format("$%04X")
       case HexaSharp => if bytes == 1 then Format("#%02X") else Format("#%02X")
       case _ => Format("%3u"))
    case Bin => NoFormat
    case Dummy => NoFormat
  }

  class Exporter {
    const kind: Kind
    const format: DataFormat
    /** The running byte count, a 32-bit unsigned counter. */
    var totalBytes: u32
    /** The binary exporter's output vector; the other kinds leave it empty. */
    var outData: seq<u8>
    /** The calls received so far. */
    ghost var trace: seq<Call>

    /** The counter is the 32-bit total of the calls' sizes and the binary output is
        their bytes. */
    ghost predicate Valid()
      reads this
    {
      Holds(totalBytes, outData, kind, trace)
    }

    constructor (k: Kind, f: DataFormat)
      ensures kind == k && format == f
      ensures totalBytes == 0 && outData == [] && trace == []
      ensures Valid()
    {
      kind := k;
      format := f;
      totalBytes := 0;
      outData := [];
      trace := [];
    }

    method GetTotalBytes() returns (n: u32)
      requires Valid()
      ensures n == totalBytes == Wrap32(Size(trace))
    {
      assert Counts(totalBytes, outData, kind, trace);
      n := totalBytes;
    }

    /** The common effect of a write: count the bytes, append them in the binary kind,
        record the call. */
    method Put(c: Call, bytes: seq<u8>, n: nat)
      requires Valid()
      requires bytes == CallBytes(c) && n == Increment(c)
      modifies this
      ensures trace == old(trace) + [c]
      ensures Valid()
    {
      HoldsSnoc(totalBytes, outData, kind, trace, c, bytes, n);
      var out := if kind == Bin then outData + bytes else outData;
      var total := Wrap32(totalBytes + n);
      outData, totalBytes, trace := out, total, trace + [c];
    }

    method WriteHeader()
      requires Valid()
      modifies this
      ensures trace == old(trace) + [Header] && Valid()
    {
      Put(Header, [], 0);
    }

    method WriteTableBegin()
      requires Valid()
      modifies this
      ensures trace == old(trace) + [TableBegin] && Valid()
    {
      Put(TableBegin, [], 0);
    }

    method WriteSpriteHeader(number: int)
      requires Valid()
      modifies this
      ensures trace == old(trace) + [SpriteHeader(number)] && Valid()
    {
      Put(SpriteHeader(number), [], 0);
    }

    method WriteCommentLine()
      requires Valid()
      modifies this
      ensures trace == old(trace) + [CommentLine] && Valid()
    {
      Put(CommentLine, [], 0);
    }

    method Write1ByteLine(a: u8)
      requires Valid()
      modifies this
      ensures trace == old(trace) + [ByteLine(a)] && Valid()
    {
      Put(ByteLine(a), [a], 1);
    }

    method Write2BytesLine(a: u8, b: u8)
      requires Valid()
      modifies this
      ensures trace == old(trace) + [TwoBytesLine(a, b)] && Valid()
    {
      Put(TwoBytesLine(a, b), [a, b], 2);
    }

    method Write4BytesLine(a: u8, b: u8, c: u8, d: u8)
      requires Valid()
      modifies this
      ensures trace == old(trace) + [FourBytesLine(a, b, c, d)] && Valid()
    {
      Put(FourBytesLine(a, b, c, d), [a, b, c, d], 4);
    }

    method Write1WordLine(w: u16)
      requires Valid()
      modifies this
      ensures trace == old(trace) + [WordLine(w)] && Valid()
    {
      Put(WordLine(w), [w % 0x100, w / 0x100], 2);
    }

    method Write2WordsLine(w1: u16, w2: u16)
      requires Valid()
      modifies this
      ensures trace == old(trace) + [TwoWordsLine(w1, w2)] && Valid()
    {
      Put(TwoWordsLine(w1, w2), [w1 % 0x100, w1 / 0x100, w2 % 0x100, w2 / 0x100], 4);
    }

    method WriteLineBegin()
      requires Valid()
      modifies this
      ensures trace == old(trace) + [LineBegin] && Valid()
    {
      Put(LineBegin, [], 0);
    }

    method Write1ByteData(d: u8)
      requires Valid()
      modifies this
      ensures trace == old(trace) + [ByteData(d)] && Valid()
    {
      Put(ByteData(d), [d], 1);
    }

    method Write8BitsData(d: u8)
      requires Valid()
      modifies this
      ensures trace == old(trace) + [BitsData(d)] && Valid()
    {
      Put(BitsData(d), [d], 1);
    }

    method WriteLineEnd()
      requires Valid()
      modifies this
      ensures trace == old(trace) + [LineEnd] && Valid()
    {
      Put(LineEnd, [], 0);
    }

    method WriteTableEnd()
      requires Valid()
      modifies this
      ensures trace == old(trace) + [TableEnd] && Valid()
    {
      Put(TableEnd, [], 0);
    }

    /** Writing the output: the dummy exporter always succeeds; the others succeed when
        the file could be written, which is an input here. */
    method Export(fileWritten: bool) returns (ok: bool)
      ensures ok <==> kind == Dummy || fileWritten
    {
      ok := kind == Dummy || fileWritten;
    }
  }

  /** The binary exporter's vector holds exactly the counted bytes: its length agrees
      with the total modulo 2^32, and it is the concatenation of the calls' bytes. */
  lemma BinLengthMatchesTotal(e: Exporter)
    requires e.Valid() && e.kind == Bin
    ensures Wrap32(|e.outData|) == e.totalBytes
    ensures e.outData == Bytes(e.trace)
  {
    assert Counts(e.totalBytes, e.outData, e.kind, e.trace);
    BytesLength(e.trace);
  }

  /** Exporters of any two kinds that received the same calls report the same total: a
      count-only run predicts the size of the real one byte for byte. */
  lemma SameTotalForSameCalls(e1: Exporter, e2: Exporter)
    requires e1.Valid() && e2.Valid() && e1.trace == e2.trace
    ensures e1.totalBytes == e2.totalBytes
  {
    assert Counts(e1.totalBytes, e1.outData, e1.kind, e1.trace);
    assert Counts(e2.totalBytes, e2.outData, e2.kind, e2.trace);
  }
}
