// The rotate node (src/compute/rotate.cpp): its mode parameter and the
// size of the image it produces.
module Rotate {

  /** `Rotate::Mode`; `Max` is the count, not a mode. */
  datatype Mode = NoRotation | Clockwise90 | Full180 | AntiClockwise90 | FlipHoriz | FlipVert

  function ModeCode(m: Mode): int
  {
    match m
    case NoRotation => 0
    case Clockwise90 => 1
    case Full180 => 2
    case AntiClockwise90 => 3
    case FlipHoriz => 4
    case FlipVert => 5
  }

  const ModeCount: int := 6

  /** The mode parameter's default and bounds: None, and [None, Max - 1]. */
  const ModeDefault: int := 0
  const ModeMin: int := 0
  const ModeMax: int := ModeCount - 1

  /** The mode parameter's range holds exactly the codes of the modes, and
      its default is the code of no rotation. */
  lemma ModeRangeIsModes(c: int)
    ensures ModeMin <= c <= ModeMax <==> exists m: Mode :: ModeCode(m) == c
    ensures ModeCode(NoRotation) == ModeDefault
  {
    if ModeMin <= c <= ModeMax {
      var m := if c == 0 then NoRotation else if c == 1 then Clockwise90 else if c == 2 then Full180
               else if c == 3 then AntiClockwise90 else if c == 4 then FlipHoriz else FlipVert;
      assert ModeCode(m) == c;
    }
  }

  /** The output size for mode value `mode` and input size `dim`. */
  function OutputSize(mode: int, dim: (int, int)): (r: (int, int))
  {
    if mode == ModeCode(Clockwise90) || mode == ModeCode(AntiClockwise90) then (dim.1, dim.0) else dim
  }

  /** Only the quarter turns swap width and height; every mode keeps the
      pixel count, and applying the rule twice gives back the input size. */
  lemma OutputSizeSwapsOnQuarterTurns(mode: int, dim: (int, int))
    ensures OutputSize(mode, dim) == (dim.1, dim.0) || OutputSize(mode, dim) == dim
    ensures dim.0 != dim.1 ==> (OutputSize(mode, dim) == dim <==> mode != 1 && mode != 3)
    ensures OutputSize(mode, dim).0 * OutputSize(mode, dim).1 == dim.0 * dim.1
    ensures OutputSize(mode, OutputSize(mode, dim)) == dim
  {
  }

  class RotateNode {
    var size: (int, int)
    var modeDefault: int
    var modeMin: int
    var modeMax: int

    constructor ()
      ensures size == (0, 0)
    {
      size := (0, 0);
      modeDefault, modeMin, modeMax := 0, 0, 0;
    }

    /** `init`: sets up the mode parameter and sizes the output image;
        `mode` is the parameter's current value and `input` the input
        image's size. */
    method Init(mode: int, input: (int, int))
      modifies this
      ensures modeDefault == ModeDefault && modeMin == ModeMin && modeMax == ModeMax
      ensures size == OutputSize(mode, input)
    {
      size := (0, 0);
      modeDefault := ModeCode(NoRotation);
      modeMin := ModeCode(NoRotation);
      modeMax := ModeCount - 1;
      if mode == ModeCode(Clockwise90) || mode == ModeCode(AntiClockwise90) {
        size := (input.1, input.0);
      } else {
        size := input;
      }
    }
  }
}
