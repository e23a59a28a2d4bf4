/**
 * Path splitting of engine/util/Utils.cpp: `GetFileName` and `GetFileDir`
 * cut a path at its last backslash with `std::string::rfind` and `substr`.
 * `size_t` arithmetic is modelled explicitly: `rfind` answers `npos`
 * (2^64 - 1) when the separator is absent, and `npos + 1` wraps to 0.
 */
module Paths {

  /** 2^64, the modulus of `size_t` arithmetic. */
  const SizeModulus: nat := 0x1_0000_0000_0000_0000

  /** `std::string::npos`, the largest `size_t`. */
  const Npos: nat := SizeModulus - 1

  /** The only separator the engine splits at. */
  const Separator: char := '\\'

  /** A length a `std::string` can have: `max_size()` is below `npos`. */
  predicate ValidLength(s: string) {
    |s| < Npos
  }

  /** `s.rfind(ch)`: the index of the last `ch`, or `npos` when there is none. */
  function RFind(s: string, ch: char): (pos: nat)
    requires ValidLength(s)
    ensures pos == Npos <==> ch !in s
    ensures pos != Npos ==> pos < |s| && s[pos] == ch && forall j :: pos < j < |s| ==> s[j] != ch
  {
    if s == [] then Npos
    else if s[|s| - 1] == ch then |s| - 1
    else RFind(s[..|s| - 1], ch)
  }

  /** `s.substr(pos, count)`: at most `count` characters from `pos`; `pos` past the end throws, so it is required. */
  function Substr(s: string, pos: nat, count: nat): (r: string)
    requires pos <= |s|
    ensures |r| <= |s| - pos
    ensures r == s[pos..pos + |r|]
    ensures |r| == if count < |s| - pos then count else |s| - pos
  {
    if count < |s| - pos then s[pos..pos + count] else s[pos..]
  }

  /** `GetFileName`: everything after the last backslash, found at `rfind(...) + 1` in `size_t` arithmetic. */
  function GetFileName(pathName: string): string
    requires ValidLength(pathName)
  {
    var pos := RFind(pathName, Separator);
    Substr(pathName, (pos + 1) % SizeModulus, Npos)
  }

  /** `GetFileDir`: everything before the last backslash (`substr(0, npos)` takes the whole string). */
  function GetFileDir(pathName: string): string
    requires ValidLength(pathName)
  {
    Substr(pathName, 0, RFind(pathName, Separator))
  }

  // ---------------------------------------------------------------------------
  // Properties
  // ---------------------------------------------------------------------------

  /** With the last backslash at `k`, the name is what follows it and the directory what precedes it. */
  lemma SplitAtLastSeparator(pathName: string, k: nat)
    requires ValidLength(pathName)
    requires k < |pathName| && pathName[k] == Separator
    requires forall j :: k < j < |pathName| ==> pathName[j] != Separator
    ensures GetFileName(pathName) == pathName[k + 1..]
    ensures GetFileDir(pathName) == pathName[..k]
  {
    var pos := RFind(pathName, Separator);
    assert pos == k;
  }

  /** Directory, backslash and name put back together give the path. */
  lemma DirAndNameRebuildPath(pathName: string)
    requires ValidLength(pathName)
    requires Separator in pathName
    ensures GetFileDir(pathName) + [Separator] + GetFileName(pathName) == pathName
  {
    var k := RFind(pathName, Separator);
    SplitAtLastSeparator(pathName, k);
    assert pathName == pathName[..k] + [Separator] + pathName[k + 1..];
  }

  /** The name holds no backslash and ends the path; the directory begins it. */
  lemma PartsOfPath(pathName: string)
    requires ValidLength(pathName)
    ensures Separator !in GetFileName(pathName)
    ensures |GetFileName(pathName)| <= |pathName|
    ensures GetFileName(pathName) == pathName[|pathName| - |GetFileName(pathName)|..]
    ensures |GetFileDir(pathName)| <= |pathName|
    ensures GetFileDir(pathName) == pathName[..|GetFileDir(pathName)|]
  {
    var k := RFind(pathName, Separator);
    if k != Npos {
      SplitAtLastSeparator(pathName, k);
    }
  }

  /** Without a backslash, `npos + 1` wraps to 0 and both functions return the whole path. */
  lemma NoSeparatorKeepsPath(pathName: string)
    requires ValidLength(pathName)
    requires Separator !in pathName
    ensures GetFileName(pathName) == pathName
    ensures GetFileDir(pathName) == pathName
  {
  }

  /** A forward slash is not a separator: it stays inside the name. */
  lemma ForwardSlashIsNotSeparator()
    ensures GetFileName("assets\\models/cube.obj") == "models/cube.obj"
    ensures GetFileDir("assets\\models/cube.obj") == "assets"
  {
    SplitAtLastSeparator("assets\\models/cube.obj", 6);
  }
}
