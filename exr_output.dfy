// The EXR sequence writer (src/outputs/exr.cpp): one file per executed
// frame, named after the path parameter and a frame counter.
module ExrOutput {
  import opened Wrappers
  import opened Strings
  import opened Paths
  import opened NumberedNames

  datatype ExecutionType = UI | Execution

  const FrameCountModulus: nat := 0x1_0000_0000  // _frame_count is a uint32_t

  /** `_filename()` as written: the path with extension "exr", renamed to
      stem + "_" + counter, then given extension "exr" again. */
  function FilenameAsWritten(path: string, frameCount: nat): string
  {
    AsWritten(path, "exr", frameCount)
  }

  /** The file the node means to write for a frame. */
  function Filename(path: string, frameCount: nat): (r: string)
    ensures r == Dir(path) + Stem(FileName(path)) + "_" + NatToString(frameCount) + ".exr"
  {
    DotPlain("exr");
    Intended(path, "exr", frameCount)
  }

  /** A file name "s.v.x" whose stem holds a dot loses the counter: every
      frame is written to "s.exr" ("shot.v2.mp4" gives "shot.exr"). */
  lemma FilenameAsWrittenCollides(s: string, v: string, x: string, frameCount: nat)
    requires s != [] && v != [] && x != []
    requires !HasChar(s, '/') && !HasChar(v, '/') && !HasChar(x, '/')
    requires !HasChar(v, '.') && !HasChar(x, '.')
    ensures FilenameAsWritten(s + "." + v + "." + x, frameCount) == s + ".exr"
  {
    ExrIsPlain(s);
    AsWrittenCollides(s, v, x, "exr", frameCount);
  }

  lemma ExrIsPlain(s: string)
    ensures PlainExt("exr")
    ensures s + "." + "exr" == s + ".exr"
  {
  }

  /** Distinct frames go to distinct files. */
  lemma FilenameDistinct(path: string, a: nat, b: nat)
    requires a != b
    ensures Filename(path, a) != Filename(path, b)
  {
    IntendedDistinct(path, "exr", a, b);
  }

  /** For a non-empty stem without dots the code writes the intended file. */
  lemma FilenameAgrees(path: string, frameCount: nat)
    requires Stem(FileName(path)) != [] && !HasChar(Stem(FileName(path)), '.')
    ensures FilenameAsWritten(path, frameCount) == Filename(path, frameCount)
  {
    AsWrittenAgrees(path, "exr", frameCount);
  }

  /** The output node: the path parameter's value, the uint32 frame counter,
      and the list of files written so far. */
  class ExrOutput {
    var path: string
    var frameCount: nat
    var written: seq<string>

    ghost predicate Valid() reads this { frameCount < FrameCountModulus }

    constructor (path: string)
      ensures Valid() && this.path == path && frameCount == 0 && written == []
    {
      this.path := path;
      frameCount := 0;
      written := [];
    }

    /** `init`: a path shorter than three characters is refused. */
    method Init() returns (r: Result<()>)
      ensures r.Ok? <==> |path| >= 3
      ensures r.Err? ==> r.msg == "No path provided to exr node."
    {
      if |path| < 3 {
        return Err("No path provided to exr node.");
      }
      return Ok(());
    }

    /** `execute`: only an Execution run writes a file, named as the code
        names it, and advances the counter. */
    method Execute(t: ExecutionType)
      requires Valid()
      modifies this
      ensures Valid() && path == old(path)
      ensures t != Execution ==> frameCount == old(frameCount) && written == old(written)
      ensures t == Execution ==>
        written == old(written) + [FilenameAsWritten(path, old(frameCount))] &&
        frameCount == (old(frameCount) + 1) % FrameCountModulus
    {
      if t != Execution {
        return;
      }
      written := written + [FilenameAsWritten(path, frameCount)];
      frameCount := (frameCount + 1) % FrameCountModulus;
    }
  }
}
