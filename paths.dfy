// The part of ghc::filesystem::path that the output nodes rely on: the
// parent directory, the filename, its stem and extension, and the
// replace_extension / replace_filename edits. Paths are '/'-separated strings.
module Paths {
  import opened Strings

  /** Index of the last occurrence of `c` in `s`, or -1. */
  function LastIndexOf(s: string, c: char): (k: int)
    ensures -1 <= k < |s|
    ensures k >= 0 ==> s[k] == c
    ensures forall j :: k < j < |s| ==> s[j] != c
  {
    if s == [] then -1
    else if s[|s| - 1] == c then |s| - 1
    else LastIndexOf(s[..|s| - 1], c)
  }

  /** The last occurrence is recognised from its defining property. */
  lemma LastIndexOfAt(s: string, c: char, k: nat)
    requires k < |s| && s[k] == c
    requires forall j :: k < j < |s| ==> s[j] != c
    ensures LastIndexOf(s, c) == k
  {
  }

  lemma LastIndexOfNone(s: string, c: char)
    requires !HasChar(s, c)
    ensures LastIndexOf(s, c) == -1
  {
  }

  /** Everything up to and including the last '/', "" when there is none. */
  function Dir(p: string): string
  {
    p[..LastIndexOf(p, '/') + 1]
  }

  /** path::filename(): what follows the last '/'. */
  function FileName(p: string): string
  {
    p[LastIndexOf(p, '/') + 1..]
  }

  /** path::stem(): the filename without its final extension; "." and "..",
      and names whose only dot is the first character, are their own stem. */
  function Stem(f: string): string
  {
    if f == "." || f == ".." then f
    else
      var k := LastIndexOf(f, '.');
      if k > 0 then f[..k] else f
  }

  /** path::extension(): the rest of the filename after the stem. */
  function Extension(f: string): string
  {
    f[|Stem(f)|..]
  }

  /** The text replace_extension appends for a requested extension `e`. */
  function DotExtension(e: string): string
  {
    if e == "" then "" else if e[0] == '.' then e else "." + e
  }

  /** path::replace_extension(e). */
  function ReplaceExtension(p: string, e: string): string
  {
    Dir(p) + Stem(FileName(p)) + DotExtension(e)
  }

  /** path::replace_filename(f). */
  function ReplaceFilename(p: string, f: string): string
  {
    Dir(p) + f
  }

  lemma DirFileName(p: string)
    ensures Dir(p) + FileName(p) == p
    ensures !HasChar(FileName(p), '/')
    ensures Dir(p) == [] || Dir(p)[|Dir(p)| - 1] == '/'
  {
  }

  lemma StemExtension(f: string)
    ensures Stem(f) + Extension(f) == f
    ensures |Stem(f)| <= |f|
  {
  }

  lemma StemHasNoSlash(p: string)
    ensures !HasChar(Stem(FileName(p)), '/')
  {
    var s := Stem(FileName(p));
    DirFileName(p);
    StemExtension(FileName(p));
    assert FileName(p)[..|s|] == s;
  }

  lemma {:induction false} LastIndexOfAppend(d: string, f: string, c: char)
    requires !HasChar(f, c)
    ensures LastIndexOf(d + f, c) == LastIndexOf(d, c)
    decreases |f|
  {
    if f == [] {
      assert d + f == d;
    } else {
      assert (d + f)[..|d + f| - 1] == d + f[..|f| - 1];
      assert (d + f)[|d + f| - 1] == f[|f| - 1];
      LastIndexOfAppend(d, f[..|f| - 1], c);
    }
  }

  /** Re-splitting a directory prefix joined to a '/'-free name gives both back. */
  lemma DirOfJoin(p: string, f: string)
    requires !HasChar(f, '/')
    ensures Dir(Dir(p) + f) == Dir(p)
    ensures FileName(Dir(p) + f) == f
  {
    var d := Dir(p);
    LastIndexOfAppend(d, f, '/');
    var k := LastIndexOf(p, '/');
    assert |d| == k + 1;
    if k >= 0 {
      assert d[k] == '/';
    } else {
      assert d == [];
    }
    assert LastIndexOf(d, '/') == k;
    assert (d + f)[..k + 1] == d;
    assert (d + f)[k + 1..] == f;
  }

  /** Replacing the extension of a dot-free, '/'-free name simply appends. */
  lemma ReplaceExtensionOfPlain(p: string, f: string, e: string)
    requires !HasChar(f, '/') && !HasChar(f, '.')
    ensures ReplaceExtension(Dir(p) + f, e) == Dir(p) + f + DotExtension(e)
  {
    DirOfJoin(p, f);
    LastIndexOfNone(f, '.');
  }

  /** replace_extension on a bare name "a.b" keeps "a". */
  lemma ReplaceExtensionOfDotted(a: string, b: string, e: string)
    requires a != [] && b != [] && !HasChar(b, '.')
    requires !HasChar(a, '/') && !HasChar(b, '/')
    ensures !HasChar(a + "." + b, '/')
    ensures ReplaceExtension(a + "." + b, e) == a + DotExtension(e)
  {
    var p := a + "." + b;
    LastIndexOfNone(p, '/');
    assert Dir(p) == "" && FileName(p) == p;
    StemOfDotted(a, b);
  }

  /** The stem of "s.e" is s, for a non-empty s and a dot-free e. */
  lemma StemOfDotted(s: string, e: string)
    requires s != [] && e != [] && !HasChar(e, '.')
    ensures Stem(s + "." + e) == s
  {
    var f := s + "." + e;
    assert f == (s + ".") + e;
    LastIndexOfAppend(s + ".", e, '.');
    assert (s + ".")[|s|] == '.';
    assert LastIndexOf(s + ".", '.') == |s|;
    assert f[..|s|] == s;
  }
}
