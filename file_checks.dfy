/**
 * The checks the location pages make on a file path, and the file-system
 * facts they query, which the model receives as values.
 */
module FileChecks {

  /** A file as the location page hands it over: its (normalised) path. */
  datatype File = File(path: string) {
    /** java.io.File.getName: the last segment of the path. */
    function Name(): string {
      BaseName(path)
    }
  }

  /** What the file system answers about a referenced file. */
  datatype FileStatus = FileStatus(fileExists: bool, canRead: bool)

  /**
   * What the file system answers about the directory of an uploaded file:
   * whether it exists, whether creating it would succeed (asked only when it
   * does not exist) and whether it is writable afterwards.
   */
  datatype DirectoryStatus = DirectoryStatus(directoryExists: bool, mkdirsSucceeds: bool, canWrite: bool)

  /** The part of a path after its last '/'. */
  function BaseName(path: string): string {
    if path == [] || path[|path| - 1] == '/' then []
    else BaseName(path[..|path| - 1]) + [path[|path| - 1]]
  }

  /**
   * The file name is the longest '/'-free suffix of the path: it ends the
   * path, holds no '/', and is either the whole path or preceded by a '/'.
   */
  lemma {:induction false} BaseNameIsLastSegment(path: string)
    ensures '/' !in BaseName(path)
    ensures |BaseName(path)| <= |path| && BaseName(path) == path[|path| - |BaseName(path)|..]
    ensures |BaseName(path)| < |path| ==> path[|path| - |BaseName(path)| - 1] == '/'
  {
    var n := |path|;
    if n > 0 && path[n - 1] != '/' {
      var init := path[..n - 1];
      BaseNameIsLastSegment(init);
      var r' := BaseName(init);
      var r := r' + [path[n - 1]];
      assert BaseName(path) == r;
      assert path[n - |r|..] == init[|init| - |r'|..] + [path[n - 1]];
      assert forall k :: 0 <= k < |r'| ==> r[k] == r'[k];
      if |r| < n {
        assert path[n - |r| - 1] == init[|init| - |r'| - 1];
      }
    }
  }

  /** Lower-casing of one character; only the ASCII letters A to Z change. */
  function ToLowerAscii(c: char): char {
    if 'A' <= c <= 'Z' then (c as int - 'A' as int + 'a' as int) as char else c
  }

  function ToLower(s: string): (r: string)
    ensures |r| == |s|
    ensures forall i :: 0 <= i < |s| ==> r[i] == ToLowerAscii(s[i])
  {
    if s == [] then [] else [ToLowerAscii(s[0])] + ToLower(s[1..])
  }

  predicate EndsWith(s: string, suffix: string) {
    |suffix| <= |s| && s[|s| - |suffix|..] == suffix
  }

  /** The existing-file page's test: the lower-cased path ends in .csv or .tsv. */
  predicate HasAllowedExtension(filepath: string) {
    EndsWith(ToLower(filepath), ".csv") || EndsWith(ToLower(filepath), ".tsv")
  }

  lemma LowerIs(c: char, lower: char, upper: char)
    requires 'a' <= lower <= 'z' && upper as int == lower as int - 32
    ensures ToLowerAscii(c) == lower <==> c == lower || c == upper
  {
  }

  lemma LowerIsDot(c: char)
    ensures ToLowerAscii(c) == '.' <==> c == '.'
  {
  }

  /**
   * The extension test, character by character on the path as given: a dot,
   * then c or t, then s, then v, each letter in either case.
   */
  lemma AllowedExtensionIff(filepath: string)
    ensures HasAllowedExtension(filepath) <==>
      |filepath| >= 4 && filepath[|filepath| - 4] == '.' &&
      filepath[|filepath| - 3] in "cCtT" && filepath[|filepath| - 2] in "sS" && filepath[|filepath| - 1] in "vV"
  {
    var n := |filepath|;
    if n >= 4 {
      var lower := ToLower(filepath);
      var tail := lower[n - 4..];
      assert tail == [lower[n - 4], lower[n - 3], lower[n - 2], lower[n - 1]];
      LowerIsDot(filepath[n - 4]);
      LowerIs(filepath[n - 3], 'c', 'C');
      LowerIs(filepath[n - 3], 't', 'T');
      LowerIs(filepath[n - 2], 's', 'S');
      LowerIs(filepath[n - 1], 'v', 'V');
      assert tail == ".csv" <==> lower[n - 4] == '.' && lower[n - 3] == 'c' && lower[n - 2] == 's' && lower[n - 1] == 'v';
      assert tail == ".tsv" <==> lower[n - 4] == '.' && lower[n - 3] == 't' && lower[n - 2] == 's' && lower[n - 1] == 'v';
    }
  }

  /** Any stem with .csv or .tsv in any letter case passes; other suffixes do not. */
  lemma ExtensionExamples(stem: string)
    ensures HasAllowedExtension(stem + ".csv") && HasAllowedExtension(stem + ".CSV")
    ensures HasAllowedExtension(stem + ".Tsv") && HasAllowedExtension(stem + ".tSV")
    ensures !HasAllowedExtension(stem + ".txt") && !HasAllowedExtension(stem + ".csv.gz")
    ensures !HasAllowedExtension(stem + "_csv") && !HasAllowedExtension("csv")
  {
    AllowedExtensionIff(stem + ".csv");
    AllowedExtensionIff(stem + ".CSV");
    AllowedExtensionIff(stem + ".Tsv");
    AllowedExtensionIff(stem + ".tSV");
    AllowedExtensionIff(stem + ".txt");
    AllowedExtensionIff(stem + ".csv.gz");
    AllowedExtensionIff(stem + "_csv");
    AllowedExtensionIff("csv");
  }
}
