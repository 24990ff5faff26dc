// The window surface's colour-format choice (src/surface.cpp, the end of
// `Surface::init`): the driver's list of (format, colour space) pairs is an
// input.
module Surfaces {

  // VkFormat values.
  const FORMAT_UNDEFINED: int := 0
  const B8G8R8A8_UNORM: int := 44

  datatype SurfaceFormat = SurfaceFormat(format: int, colorSpace: int)

  /** The position of the first B8G8R8A8_UNORM entry, or |formats|. */
  function FirstUnorm(formats: seq<SurfaceFormat>): (r: nat)
    ensures r <= |formats|
    ensures r < |formats| ==> formats[r].format == B8G8R8A8_UNORM
    ensures forall k :: 0 <= k < r ==> formats[k].format != B8G8R8A8_UNORM
  {
    if formats == [] then 0
    else if formats[0].format == B8G8R8A8_UNORM then 0
    else 1 + FirstUnorm(formats[1..])
  }

  /** The chosen pair: B8G8R8A8_UNORM in the single entry's colour space
      when the only entry is UNDEFINED; else the first B8G8R8A8_UNORM
      entry; else entry 0. */
  function Choose(formats: seq<SurfaceFormat>): (r: SurfaceFormat)
    requires |formats| >= 1
  {
    if |formats| == 1 && formats[0].format == FORMAT_UNDEFINED then SurfaceFormat(B8G8R8A8_UNORM, formats[0].colorSpace)
    else if FirstUnorm(formats) < |formats| then formats[FirstUnorm(formats)]
    else formats[0]
  }

  /** The choice is always B8G8R8A8_UNORM or one of the listed pairs, and
      B8G8R8A8_UNORM whenever the list offers it. */
  lemma ChooseListed(formats: seq<SurfaceFormat>)
    requires |formats| >= 1
    ensures Choose(formats).format == B8G8R8A8_UNORM || Choose(formats) in formats
    ensures (exists k :: 0 <= k < |formats| && formats[k].format == B8G8R8A8_UNORM) ==>
            Choose(formats).format == B8G8R8A8_UNORM
    ensures Choose(formats).format != B8G8R8A8_UNORM ==> Choose(formats) == formats[0]
  {
  }

  class Surface {
    var colourFormat: int
    var colourSpace: int

    constructor ()
    {
    }

    /** The format selection in `init`. The driver reports at least one
        pair, which the source relies on when it falls back to entry 0. */
    method ChooseFormat(formats: seq<SurfaceFormat>)
      requires |formats| >= 1
      modifies this
      ensures SurfaceFormat(colourFormat, colourSpace) == Choose(formats)
    {
      if |formats| == 1 && formats[0].format == FORMAT_UNDEFINED {
        colourFormat := B8G8R8A8_UNORM;
        colourSpace := formats[0].colorSpace;
      } else {
        var found := false;
        var i := 0;
        while i < |formats| && !found
          invariant 0 <= i <= |formats|
          invariant forall k :: 0 <= k < i ==> formats[k].format != B8G8R8A8_UNORM
          invariant found ==> i < |formats| && formats[i].format == B8G8R8A8_UNORM &&
                              SurfaceFormat(colourFormat, colourSpace) == formats[i]
          decreases |formats| - i, !found
        {
          if formats[i].format == B8G8R8A8_UNORM {
            colourFormat := formats[i].format;
            colourSpace := formats[i].colorSpace;
            found := true;
          } else {
            i := i + 1;
          }
        }
        if found {
          FirstUnormIs(formats, i);
        }
        if !found {
          FirstUnormAbsent(formats);
          colourFormat := formats[0].format;
          colourSpace := formats[0].colorSpace;
        }
      }
    }
  }

  lemma {:induction false} FirstUnormIs(formats: seq<SurfaceFormat>, i: nat)
    requires i < |formats| && formats[i].format == B8G8R8A8_UNORM
    requires forall k :: 0 <= k < i ==> formats[k].format != B8G8R8A8_UNORM
    ensures FirstUnorm(formats) == i
  {
    if i > 0 {
      FirstUnormIs(formats[1..], i - 1);
    }
  }

  lemma {:induction false} FirstUnormAbsent(formats: seq<SurfaceFormat>)
    requires forall k :: 0 <= k < |formats| ==> formats[k].format != B8G8R8A8_UNORM
    ensures FirstUnorm(formats) == |formats|
  {
    if formats != [] {
      FirstUnormAbsent(formats[1..]);
    }
  }
}
