/**
 * The string helpers at the top of ContentManagementSystem.cpp.
 *
 * The source stores the offset returned by std::string::find_* in a 32-bit
 * unsigned integer and then compares it with std::string::npos, a size_t.
 * Whether "not found" is then recognised depends on the width of size_t, so
 * the width is an explicit parameter here.
 */
module Paths {
  import opened Wrappers
  import opened U32Arith

  /** Width of size_t on the target platform. */
  datatype Width = W32 | W64

  /** std::string::npos for the given width of size_t. */
  function Npos(w: Width): nat
  {
    if w == W32 then 0xFFFF_FFFF else 0xFFFF_FFFF_FFFF_FFFF
  }

  /** The size_t a find_* call returns: the index found, or npos. */
  function SizeT(found: Option<nat>, w: Width): nat
  {
    if found.Some? then found.value else Npos(w)
  }

  /** find_first_of(c, from): the first index at or after `from` holding `c`. */
  function FindFirstOf(s: string, c: char, from: nat): (r: Option<nat>)
    ensures r.Some? ==> from <= r.value < |s| && s[r.value] == c
    ensures r.Some? ==> forall i :: from <= i < r.value ==> s[i] != c
    ensures r.None? ==> forall i :: from <= i < |s| ==> s[i] != c
    decreases |s| - from
  {
    if from >= |s| then None
    else if s[from] == c then Some(from)
    else FindFirstOf(s, c, from + 1)
  }

  /** find_last_of(c): the last index holding `c`. */
  function FindLastOf(s: string, c: char): (r: Option<nat>)
    ensures r.Some? ==> r.value < |s| && s[r.value] == c
    ensures r.Some? ==> forall i :: r.value < i < |s| ==> s[i] != c
    ensures r.None? ==> forall i :: 0 <= i < |s| ==> s[i] != c
  {
    if |s| == 0 then None
    else if s[|s| - 1] == c then Some(|s| - 1)
    else FindLastOf(s[..|s| - 1], c)
  }

  /** std::string::substr(pos, n), for a `pos` within the string. */
  function Substr(s: string, pos: nat, n: nat): (r: string)
    requires pos <= |s|
    ensures |r| <= n && pos + |r| <= |s| && r == s[pos..pos + |r|]
    ensures |r| == if pos + n <= |s| then n else |s| - pos
  {
    if pos + n <= |s| then s[pos..pos + n] else s[pos..]
  }

  /** Whether the path holds a '/'; the size_t result is compared with npos directly. */
  function ContainsDirectoryPath(path: string): (r: bool)
    ensures r <==> exists i :: 0 <= i < |path| && path[i] == '/'
  {
    FindFirstOf(path, '/', 0).Some?
  }

  /** Whether the path names a file, which the source decides by the presence of a '.'. */
  function IsFile(path: string): (r: bool)
    ensures r <==> exists i :: 0 <= i < |path| && path[i] == '.'
  {
    FindFirstOf(path, '.', 0).Some?
  }

  /** The text before the last '/', or "" when the u32 offset equals npos. */
  function GetPathExcludingFileName(w: Width, path: string): (r: string)
    ensures |r| <= |path| && r == path[..|r|]
  {
    var offset := ToU32(SizeT(FindLastOf(path, '/'), w));
    if offset != Npos(w) then Substr(path, 0, offset) else ""
  }

  /** The text after the last '/', or the whole path when that text is empty or the offset equals npos. */
  function GetFileNameExcludingPath(w: Width, path: string): (r: string)
    ensures |r| <= |path| && r == path[|path| - |r|..]
  {
    var offset := ToU32(SizeT(FindLastOf(path, '/'), w));
    if offset != Npos(w) && ToU32(offset + 1) < |path| then path[ToU32(offset + 1)..] else path
  }

  /** The text before the first '/' found from index 1 on, or "" when the offset equals npos. */
  function GetRootFolderExcludingPath(w: Width, path: string): (r: string)
    ensures |r| <= |path| && r == path[..|r|]
  {
    var offset := ToU32(SizeT(FindFirstOf(path, '/', 1), w));
    if offset != Npos(w) then Substr(path, 0, offset) else ""
  }

  /** The index of the last '/' of a path that holds one. */
  function LastSlash(path: string): (k: nat)
    requires exists i :: 0 <= i < |path| && path[i] == '/'
    ensures k < |path| && path[k] == '/'
    ensures forall i :: k < i < |path| ==> path[i] != '/'
  {
    FindLastOf(path, '/').value
  }

  /**
   * For a path holding a '/' (and short enough for a u32 offset), the directory
   * part is the text before the last '/', the file name is the text after it
   * (the whole path when that is empty), and for a path not ending in '/' the
   * two parts joined by '/' give back the path. This holds for either width.
   */
  lemma SplitAtLastSlash(w: Width, path: string)
    requires exists i :: 0 <= i < |path| && path[i] == '/'
    requires |path| < U32_MODULUS
    ensures GetPathExcludingFileName(w, path) == path[..LastSlash(path)]
    ensures GetFileNameExcludingPath(w, path)
         == if LastSlash(path) + 1 < |path| then path[LastSlash(path) + 1..] else path
    ensures path[|path| - 1] != '/' ==>
              GetPathExcludingFileName(w, path) + "/" + GetFileNameExcludingPath(w, path) == path
  {
    var k := LastSlash(path);
    assert FindLastOf(path, '/') == Some(k);
    assert ToU32(k) == k;
    assert ToU32(k + 1) == k + 1;
    if path[|path| - 1] != '/' {
      assert k + 1 < |path|;
      assert path == path[..k] + "/" + path[k + 1..];
    }
  }

  /**
   * Without a '/', the result depends on the width of size_t: with a 32-bit
   * size_t the truncated offset is npos and the directory part is "", with a
   * 64-bit size_t it is not and the directory part is the whole path. The file
   * name is the whole path in both cases.
   */
  lemma NoSlashDependsOnWidth(path: string)
    requires forall i :: 0 <= i < |path| ==> path[i] != '/'
    requires |path| < U32_MODULUS - 1
    ensures GetPathExcludingFileName(W32, path) == ""
    ensures GetPathExcludingFileName(W64, path) == path
    ensures GetFileNameExcludingPath(W32, path) == path
    ensures GetFileNameExcludingPath(W64, path) == path
    ensures GetRootFolderExcludingPath(W32, path) == ""
    ensures GetRootFolderExcludingPath(W64, path) == path
  {
    assert FindLastOf(path, '/') == None;
    assert FindFirstOf(path, '/', 1) == None;
  }

  /** The root folder of a path with a '/' after its first character is the text before that '/'. */
  lemma RootFolderIsPrefix(w: Width, path: string, k: nat)
    requires 1 <= k < |path| && path[k] == '/'
    requires forall i :: 1 <= i < k ==> path[i] != '/'
    requires |path| < U32_MODULUS
    ensures GetRootFolderExcludingPath(w, path) == path[..k]
  {
    assert FindFirstOf(path, '/', 1) == Some(k);
    assert ToU32(k) == k;
  }
}
