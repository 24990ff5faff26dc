// Numbered output names "dir/stem_N.ext", shared by the EXR sequence writer
// (src/outputs/exr.cpp) and the collision-avoiding export
// (src/outputs/immediate_exr.cpp). Both build the name with the same three
// filesystem edits; `AsWritten` is that sequence, `Intended` the name the
// code means to produce.
module NumberedNames {
  import opened Strings
  import opened Paths

  /** An extension as the callers pass it: non-empty, without '.' or '/'. */
  predicate PlainExt(e: string)
  {
    e != [] && !HasChar(e, '.') && !HasChar(e, '/')
  }

  /** replace_extension(e); replace_filename(stem + "_" + n); replace_extension(e). */
  function AsWritten(path: string, e: string, n: nat): string
  {
    var p1 := ReplaceExtension(path, e);
    var p2 := ReplaceFilename(p1, Stem(FileName(p1)) + "_" + NatToString(n));
    ReplaceExtension(p2, e)
  }

  /** Directory, stem of the given file, "_", the number, ".e". */
  function Intended(path: string, e: string, n: nat): string
  {
    Dir(path) + Stem(FileName(path)) + "_" + NatToString(n) + DotExtension(e)
  }

  lemma DotPlain(e: string)
    requires PlainExt(e)
    ensures DotExtension(e) == "." + e
  {
  }

  lemma DigitsHaveNoDotOrSlash(n: nat)
    ensures !HasChar(NatToString(n), '.') && !HasChar(NatToString(n), '/')
  {
    NatToStringShape(n);
  }

  /** Distinct numbers give distinct names. */
  lemma IntendedDistinct(path: string, e: string, a: nat, b: nat)
    requires a != b
    ensures Intended(path, e, a) != Intended(path, e, b)
  {
    var pre := Dir(path) + Stem(FileName(path)) + "_";
    if Intended(path, e, a) == Intended(path, e, b) {
      var sa, sb := NatToString(a), NatToString(b);
      assert Intended(path, e, a) == pre + sa + DotExtension(e);
      assert Intended(path, e, b) == pre + sb + DotExtension(e);
      assert |sa| == |sb|;
      assert sa == Intended(path, e, a)[|pre|..|pre| + |sa|];
      assert sb == Intended(path, e, b)[|pre|..|pre| + |sb|];
      NatToStringInjective(a, b);
    }
  }

  /** No numbered name is the plain replace_extension(e) of the same path:
      they differ right after the stem ('_' against '.'). */
  lemma IntendedNotBase(path: string, e: string, n: nat)
    requires PlainExt(e)
    ensures Intended(path, e, n) != ReplaceExtension(path, e)
  {
    var pre := Dir(path) + Stem(FileName(path));
    DotPlain(e);
    assert Intended(path, e, n)[|pre|] == '_';
    assert ReplaceExtension(path, e) == pre + ("." + e);
    assert ReplaceExtension(path, e)[|pre|] == '.';
  }

  /** A non-empty, dot-free stem survives the first replace_extension. */
  lemma ReplaceExtensionKeepsStem(path: string, e: string)
    requires PlainExt(e)
    requires Stem(FileName(path)) != [] && !HasChar(Stem(FileName(path)), '.')
    ensures !HasChar(Stem(FileName(path)), '/')
    ensures Dir(ReplaceExtension(path, e)) == Dir(path)
    ensures Stem(FileName(ReplaceExtension(path, e))) == Stem(FileName(path))
  {
    var s := Stem(FileName(path));
    StemHasNoSlash(path);
    DotPlain(e);
    assert ReplaceExtension(path, e) == Dir(path) + (s + "." + e);
    DirOfJoin(path, s + "." + e);
    StemOfDotted(s, e);
  }

  /** For a stem without dots the written edits give the intended name. */
  lemma AsWrittenAgrees(path: string, e: string, n: nat)
    requires PlainExt(e)
    requires Stem(FileName(path)) != [] && !HasChar(Stem(FileName(path)), '.')
    ensures AsWritten(path, e, n) == Intended(path, e, n)
  {
    ReplaceExtensionKeepsStem(path, e);
    RenamedPlainGetsExtension(path, e, n);
  }

  /** The second replace_extension of "dir/stem_N" appends ".e". */
  lemma RenamedPlainGetsExtension(path: string, e: string, n: nat)
    requires Stem(FileName(path)) != [] && !HasChar(Stem(FileName(path)), '.')
    ensures ReplaceExtension(Dir(path) + (Stem(FileName(path)) + "_" + NatToString(n)), e)
            == Intended(path, e, n)
  {
    var s := Stem(FileName(path));
    var f := s + "_" + NatToString(n);
    StemHasNoSlash(path);
    DigitsHaveNoDotOrSlash(n);
    assert !HasChar(f, '/') && !HasChar(f, '.');
    ReplaceExtensionOfPlain(path, f, e);
    var dir, d := Dir(path), NatToString(n);
    AppendAssoc(dir, s, "_");
    AppendAssoc(dir, s + "_", d);
  }

  /** The second replace_extension cuts "s.v_N" at the dot after s, so a name
      "s.v.x" whose stem "s.v" holds a dot loses the number: every n gives
      "s.e". */
  lemma AsWrittenCollides(s: string, v: string, x: string, e: string, n: nat)
    requires PlainExt(e)
    requires s != [] && v != [] && x != []
    requires !HasChar(s, '/') && !HasChar(v, '/') && !HasChar(x, '/')
    requires !HasChar(v, '.') && !HasChar(x, '.')
    ensures AsWritten(s + "." + v + "." + x, e, n) == s + "." + e
  {
    FirstReplaceKeepsDottedStem(s, v, x, e);
    RenameKeepsDottedStem(s, v, e, NatToString(n));
    SecondReplaceDropsNumber(s, v, e, n);
  }

  /** The first replace_extension of "s.v.x" gives "s.v.e". */
  lemma FirstReplaceKeepsDottedStem(s: string, v: string, x: string, e: string)
    requires PlainExt(e)
    requires s != [] && v != [] && x != []
    requires !HasChar(s, '/') && !HasChar(v, '/') && !HasChar(x, '/')
    requires !HasChar(v, '.') && !HasChar(x, '.')
    ensures ReplaceExtension(s + "." + v + "." + x, e) == s + "." + v + "." + e
  {
    var sv := s + "." + v;
    assert !HasChar(sv, '/');
    ReplaceExtensionOfDotted(sv, x, e);
    DotPlain(e);
  }

  /** Renaming the bare "s.v.e" to its stem plus "_N" gives "s.v_N". */
  lemma RenameKeepsDottedStem(s: string, v: string, e: string, n: string)
    requires PlainExt(e)
    requires s != [] && v != []
    requires !HasChar(s, '/') && !HasChar(v, '/') && !HasChar(v, '.')
    ensures ReplaceFilename(s + "." + v + "." + e, Stem(FileName(s + "." + v + "." + e)) + "_" + n)
            == s + "." + v + "_" + n
  {
    var sv := s + "." + v;
    assert !HasChar(sv + "." + e, '/');
    LastIndexOfNone(sv + "." + e, '/');
    StemOfDotted(sv, e);
  }

  /** The second replace_extension of "s.v_N" cuts at the dot after s. */
  lemma SecondReplaceDropsNumber(s: string, v: string, e: string, n: nat)
    requires PlainExt(e)
    requires s != [] && v != []
    requires !HasChar(s, '/') && !HasChar(v, '/') && !HasChar(v, '.')
    ensures ReplaceExtension(s + "." + v + "_" + NatToString(n), e) == s + "." + e
  {
    var d := NatToString(n);
    DigitsHaveNoDotOrSlash(n);
    AppendAssoc(s + ".", v, "_");
    AppendAssoc(s + ".", v + "_", d);
    ReplaceExtensionOfDotted(s, v + "_" + d, e);
    DotPlain(e);
  }
}
