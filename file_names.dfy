// The file-name rules of the command line: the extension test that picks an exporter
// from the output name, the extension removal that derives an output name from the input
// name, and the choice of exporter both front ends make with them.
module FileNames {

  /** ext occurs in str at position i. */
  predicate OccursAt(str: string, ext: string, i: int)
  {
    0 <= i && i + |ext| <= |str| && str[i..i + |ext|] == ext
  }

  /** The first position at or after `from` where ext occurs in str, or -1 (the search of
      `std::string::find`; the empty string occurs at the start). */
  function FindFrom(str: string, ext: string, from: nat): (r: int)
    ensures r == -1 || (from <= r && OccursAt(str, ext, r))
    decreases |str| - from
  {
    if from + |ext| > |str| then -1
    else if str[from..from + |ext|] == ext then from
    else FindFrom(str, ext, from + 1)
  }

  /** FindFrom finds the first occurrence at or after `from`, and -1 means there is none. */
  lemma {:induction false} FindFromFirst(str: string, ext: string, from: nat)
    ensures var r := FindFrom(str, ext, from);
      (r == -1 <==> forall i :: from <= i && OccursAt(str, ext, i) ==> false) &&
      (r != -1 ==> forall i :: from <= i < r ==> !OccursAt(str, ext, i))
    decreases |str| - from
  {
    if from + |ext| <= |str| && str[from..from + |ext|] != ext {
      FindFromFirst(str, ext, from + 1);
    }
  }

  /** True when the file name contains ext anywhere. */
  function HaveExt(str: string, ext: string): bool
  {
    FindFrom(str, ext, 0) != -1
  }

  /** HaveExt is a substring test: ext occurs somewhere in str. */
  lemma HaveExtOccurs(str: string, ext: string)
    ensures HaveExt(str, ext) <==> exists i :: OccursAt(str, ext, i)
  {
    FindFromFirst(str, ext, 0);
  }

  /** In particular a name that ends with ext has it. */
  lemma SuffixHasExt(name: string, ext: string)
    ensures HaveExt(name + ext, ext)
  {
    var s := name + ext;
    assert s[|name|..|name| + |ext|] == ext;
    assert OccursAt(s, ext, |name|);
    HaveExtOccurs(s, ext);
  }

  /** The position of the last '.' of s, or -1 (the search of `find_last_of`). */
  function LastDot(s: string): (r: int)
    ensures -1 <= r < |s|
    ensures r != -1 ==> s[r] == '.'
  {
    if s == [] then -1
    else if s[|s| - 1] == '.' then |s| - 1
    else LastDot(s[..|s| - 1])
  }

  /** LastDot is -1 exactly when there is no dot, and no dot follows the one it finds. */
  lemma {:induction false} LastDotLast(s: string)
    ensures LastDot(s) == -1 <==> '.' !in s
    ensures LastDot(s) != -1 ==> '.' !in s[LastDot(s) + 1..]
  {
    if s != [] && s[|s| - 1] != '.' {
      var init := s[..|s| - 1];
      LastDotLast(init);
      assert s == init + [s[|s| - 1]];
      if LastDot(init) != -1 {
        assert s[LastDot(init) + 1..] == init[LastDot(init) + 1..] + [s[|s| - 1]];
      }
    }
  }

  /** The file name without its extension: everything before the last '.', or the whole
      name when it has no '.'. */
  function RemoveExt(str: string): (r: string)
    ensures |r| <= |str| && r == str[..|r|]
  {
    var dot := LastDot(str);
    if dot == -1 then str else str[..dot]
  }

  /** RemoveExt keeps a name without a dot, and otherwise cuts exactly at the last dot. */
  lemma RemoveExtCut(str: string)
    ensures '.' !in str ==> RemoveExt(str) == str
    ensures '.' in str ==> var n := |RemoveExt(str)|;
      n < |str| && str[n] == '.' && '.' !in str[n + 1..]
  {
    LastDotLast(str);
  }

  /** Removing the extension of name + "." + ext, where ext holds no dot, gives name back. */
  lemma RemoveAddedExt(name: string, ext: string)
    requires '.' !in ext
    ensures RemoveExt(name + "." + ext) == name
  {
    var s := name + "." + ext;
    assert s[|name|] == '.';
    RemoveExtCut(s);
    assert |RemoveExt(s)| == |name|;
    assert s[..|name|] == name;
  }

  /** e, a '.' and what follows, occurs in a name with a single dot exactly when the
      extension begins with what follows. */
  lemma DotExtOccurs(name: string, ext: string, e: string)
    requires '.' !in name && '.' !in ext
    requires |e| > 0 && e[0] == '.'
    ensures HaveExt(name + "." + ext, e) <==> |e| - 1 <= |ext| && ext[..|e| - 1] == e[1..]
  {
    var s := name + "." + ext;
    HaveExtOccurs(s, e);
    if |e| - 1 <= |ext| && ext[..|e| - 1] == e[1..] {
      assert s[|name|..|name| + |e|] == e;
      assert OccursAt(s, e, |name|);
    }
    if HaveExt(s, e) {
      var i :| OccursAt(s, e, i);
      assert s[i] == e[0] == '.';
      assert i == |name|;
      assert e[1..] == s[i + 1..i + |e|] == ext[..|e| - 1];
    }
  }

  /** The output formats of the command line. */
  datatype FileFormat = FormatAuto | FormatC | FormatAsm | FormatBin

  /** What the conversion writes: C header, assembler source, raw binary, or an image file
      saved by the image library. */
  datatype Target = TargetC | TargetAsm | TargetBin | TargetImage

  /** The exporter both front ends pick: a named format wins; the automatic format tests
      the output name for ".h" or ".inc", then ".s" or ".asm", then ".bin" or ".raw", and
      saves an image when none occurs. */
  function TargetOf(fmt: FileFormat, outFile: string): (t: Target)
    ensures fmt == FormatC ==> t == TargetC
    ensures fmt == FormatAsm ==> t == TargetAsm
    ensures fmt == FormatBin ==> t == TargetBin
  {
    if fmt == FormatC || (fmt == FormatAuto && (HaveExt(outFile, ".h") || HaveExt(outFile, ".inc"))) then TargetC
    else if fmt == FormatAsm || (fmt == FormatAuto && (HaveExt(outFile, ".s") || HaveExt(outFile, ".asm"))) then TargetAsm
    else if fmt == FormatBin || (fmt == FormatAuto && (HaveExt(outFile, ".bin") || HaveExt(outFile, ".raw"))) then TargetBin
    else TargetImage
  }

  /** For a name with a single extension the automatic format goes by that extension. The
      test is on the start of the extension, so "hdr" (an image format) goes to C. */
  lemma AutoTargetByExt(name: string, ext: string)
    requires '.' !in name && '.' !in ext
    ensures ext == "h" || ext == "inc" ==> TargetOf(FormatAuto, name + "." + ext) == TargetC
    ensures ext == "s" || ext == "asm" ==> TargetOf(FormatAuto, name + "." + ext) == TargetAsm
    ensures ext == "bin" || ext == "raw" ==> TargetOf(FormatAuto, name + "." + ext) == TargetBin
    ensures ext == "png" ==> TargetOf(FormatAuto, name + "." + ext) == TargetImage
    ensures ext == "hdr" ==> TargetOf(FormatAuto, name + "." + ext) == TargetC
  {
    if ext in ["h", "inc", "s", "asm", "bin", "raw", "png", "hdr"] {
      DotExtOccurs(name, ext, ".h");
      DotExtOccurs(name, ext, ".inc");
      DotExtOccurs(name, ext, ".s");
      DotExtOccurs(name, ext, ".asm");
      DotExtOccurs(name, ext, ".bin");
      DotExtOccurs(name, ext, ".raw");
    }
  }

  /** The extension of the output name derived for a named format. */
  function ExtFor(fmt: FileFormat): (e: string)
    requires fmt != FormatAuto
    ensures |e| > 1 && e[0] == '.' && '.' !in e[1..]
  {
    match fmt
    case FormatC => ".h"
    case FormatAsm => ".asm"
    case FormatBin => ".bin"
  }

  /** The output name derived from an input name with one extension leads the automatic
      format to the exporter of the named format, and gives the input's base name back. */
  lemma DerivedNameAgrees(inFile: string, fmt: FileFormat)
    requires fmt != FormatAuto
    requires '.' !in RemoveExt(inFile)
    ensures TargetOf(FormatAuto, RemoveExt(inFile) + ExtFor(fmt)) == TargetOf(fmt, "")
    ensures RemoveExt(RemoveExt(inFile) + ExtFor(fmt)) == RemoveExt(inFile)
  {
    var base := RemoveExt(inFile);
    var e := ExtFor(fmt);
    assert base + e == base + "." + e[1..];
    AutoTargetByExt(base, e[1..]);
    RemoveAddedExt(base, e[1..]);
  }
}
