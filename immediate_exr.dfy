// The one-shot image export (src/outputs/immediate_exr.cpp): the output
// format picks the download format and the extension, and the file name is
// the first of base.ext, stem_1.ext, stem_2.ext, ... that does not exist yet.
// The filesystem's `exists` is the set `present` of paths that exist when
// the export runs.
module ImmediateExr {
  import opened Strings
  import opened Paths
  import opened NumberedNames
  import ImageDownloader

  datatype ImmediateFormat = EXR | PNG | JPG

  /** The download format of each export format. */
  function DownloadFormat(f: ImmediateFormat): ImageDownloader.OutFormat
  {
    match f
    case EXR => ImageDownloader.HalfRgba
    case PNG => ImageDownloader.Uint8Rgbx
    case JPG => ImageDownloader.Uint8Rgbx
  }

  function Ext(f: ImmediateFormat): string
  {
    match f
    case EXR => "exr"
    case PNG => "png"
    case JPG => "jpg"
  }

  /** Only EXR is downloaded as half floats; every extension is a plain one
      and tells the formats apart. */
  lemma FormatChoice(f: ImmediateFormat, g: ImmediateFormat)
    ensures DownloadFormat(f) == ImageDownloader.HalfRgba <==> f == EXR
    ensures f != EXR ==> DownloadFormat(f) == ImageDownloader.Uint8Rgbx
    ensures PlainExt(Ext(f))
    ensures Ext(f) == Ext(g) <==> f == g
  {
    assert !HasChar("exr", '.') && !HasChar("exr", '/');
    assert !HasChar("png", '.') && !HasChar("png", '/');
    assert !HasChar("jpg", '.') && !HasChar("jpg", '/');
  }

  /** The k-th name the loop tries as written: the path with its extension
      replaced, then the three edits of the loop body for i = k. */
  function CandidateAsWritten(filename: string, ext: string, k: nat): string
  {
    if k == 0 then ReplaceExtension(filename, ext) else AsWritten(filename, ext, k)
  }

  /** The k-th name the loop means to try. */
  function Candidate(filename: string, ext: string, k: nat): string
  {
    if k == 0 then ReplaceExtension(filename, ext) else Intended(filename, ext, k)
  }

  /** For "s.v.x" every numbered candidate as written is "s.ext": once both
      "s.v.ext" and "s.ext" exist the loop never finds a free name. */
  lemma AsWrittenLoopNeverExits(s: string, v: string, x: string, ext: string, present: set<string>)
    requires PlainExt(ext)
    requires s != [] && v != [] && x != []
    requires !HasChar(s, '/') && !HasChar(v, '/') && !HasChar(x, '/')
    requires !HasChar(v, '.') && !HasChar(x, '.')
    requires ReplaceExtension(s + "." + v + "." + x, ext) in present && s + "." + ext in present
    ensures forall k: nat :: CandidateAsWritten(s + "." + v + "." + x, ext, k) in present
  {
    forall k: nat | k > 0
      ensures CandidateAsWritten(s + "." + v + "." + x, ext, k) in present
    {
      AsWrittenCollides(s, v, x, ext, k);
    }
  }

  /** The intended candidates are pairwise distinct. */
  lemma CandidatesDistinct(filename: string, ext: string, a: nat, b: nat)
    requires PlainExt(ext) && a != b
    ensures Candidate(filename, ext, a) != Candidate(filename, ext, b)
  {
    if a == 0 {
      IntendedNotBase(filename, ext, b);
    } else if b == 0 {
      IntendedNotBase(filename, ext, a);
    } else {
      IntendedDistinct(filename, ext, a, b);
    }
  }

  /** For a non-empty stem without dots the loop as written tries the
      intended names. */
  lemma CandidateAgrees(filename: string, ext: string, k: nat)
    requires PlainExt(ext)
    requires Stem(FileName(filename)) != [] && !HasChar(Stem(FileName(filename)), '.')
    ensures CandidateAsWritten(filename, ext, k) == Candidate(filename, ext, k)
  {
    if k > 0 {
      AsWrittenAgrees(filename, ext, k);
    }
  }

  /** The naming loop of `immediate_exr`, with each numbered name built as
      intended: returns the first candidate not in `present`, together with
      its position. */
  method ExportPath(filename: string, format: ImmediateFormat, present: set<string>)
    returns (path: string, ghost k: nat)
    ensures path !in present
    ensures path == Candidate(filename, Ext(format), k)
    ensures forall j :: 0 <= j < k ==> Candidate(filename, Ext(format), j) in present
  {
    var ext := Ext(format);
    FormatChoice(format, format);
    var base := ReplaceExtension(filename, ext);
    path := base;
    var i := 1;
    ghost var tried: set<string> := {};
    while path in present
      invariant 1 <= i
      invariant path == Candidate(filename, ext, i - 1)
      invariant tried <= present && |tried| == i - 1
      invariant forall j :: 0 <= j < i - 1 ==> Candidate(filename, ext, j) in tried
      invariant forall t :: t in tried ==> exists j :: 0 <= j < i - 1 && t == Candidate(filename, ext, j)
      decreases |present| - |tried|
    {
      assert path !in tried by {
        if path in tried {
          var j :| 0 <= j < i - 1 && path == Candidate(filename, ext, j);
          CandidatesDistinct(filename, ext, j, i - 1);
        }
      }
      tried := tried + {path};
      SubsetCard(tried, present);
      path := Dir(filename) + Stem(FileName(filename)) + "_" + NatToString(i) + DotExtension(ext);
      i := i + 1;
    }
    k := i - 1;
  }

  lemma SubsetCard(a: set<string>, b: set<string>)
    requires a <= b
    ensures |a| <= |b|
  {
    assert b == a + (b - a);
  }
}
