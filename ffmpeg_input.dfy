// The ffmpeg video input (src/inputs/ffmpeg.cpp): the frame count it derives
// from the stream header in `init`, the seek decision in `scrub`, and the
// bookkeeping of `update` (out-of-block blanking, the forced scrub flag, the
// decode-next flag). Decoding and seeking are foreign calls: their outcomes
// are inputs.
module FfmpegInputs {
  import opened Wrappers
  import BlockEdit

  const UINT32: int := 0x1_0000_0000
  const INT32_MIN: int := -0x8000_0000
  const INT32_MAX: int := 0x7FFF_FFFF
  const INT64_MIN: int := -0x8000_0000_0000_0000
  const INT64_MAX: int := 0x7FFF_FFFF_FFFF_FFFF
  const AV_TIME_BASE: int := 1000000
  /** The total frame count used when the header gives none. */
  const DefaultTotal: int := 100

  /** Assignment of a 64-bit value to the `uint32_t` frame count. */
  function Wrap32(v: int): (r: nat)
    ensures r < UINT32
    ensures 0 <= v < UINT32 ==> r == v
    ensures (r - v) % UINT32 == 0
  {
    v % UINT32
  }

  /** Conversion of a `uint32_t` to the `int` the parameter holds. */
  function ToInt32(u: nat): (r: int)
    requires u < UINT32
    ensures INT32_MIN <= r <= INT32_MAX
    ensures u <= INT32_MAX ==> r == u
    ensures (r - u) % UINT32 == 0
  {
    if u <= INT32_MAX then u else u - UINT32
  }

  /** C++ integer division, which truncates toward zero (Dafny's Euclidean
      division agrees with it for a non-negative dividend). */
  function CDiv(a: int, b: int): (r: int)
    requires b != 0
    ensures 0 <= a && 0 < b ==> r == a / b
    ensures (a < 0) == (b < 0) ==> 0 <= r
    ensures (a < 0) != (b < 0) ==> r <= 0
  {
    if a >= 0 then
      (if b > 0 then assert a / b >= 0; a / b else assert a / b <= 0; a / b)
    else if b > 0 then assert (-a) / b >= 0; -((-a) / b)
    else assert (-a) / b <= 0; -((-a) / b)
  }

  /** C++ remainder, which takes the sign of the dividend. */
  function CRem(a: int, b: int): (r: int)
    requires b != 0
    ensures 0 <= a && 0 < b ==> r == a % b
  {
    a - b * CDiv(a, b)
  }

  /** `nb_frames + 1` rounded down to an even number, stored as `uint32_t`. */
  function EvenFrames(nbFrames: int): (r: nat)
    requires INT64_MIN <= nbFrames < INT64_MAX
  {
    Wrap32(nbFrames + 1 - CRem(nbFrames + 1, 2))
  }

  /** The duration-based fallback: duration (in AV_TIME_BASE units) times the
      average frame rate, in whole frames. */
  function FallbackFrames(duration: int, rateNum: int, rateDen: int): (r: nat)
    requires rateDen != 0
  {
    Wrap32(CDiv(CDiv(duration * rateNum, rateDen), AV_TIME_BASE))
  }

  /** `_frame_count` after `init`. */
  function FrameCount(nbFrames: int, duration: int, rateNum: int, rateDen: int): (r: nat)
    requires INT64_MIN <= nbFrames < INT64_MAX
    requires EvenFrames(nbFrames) == 0 ==> rateDen != 0
    ensures r < UINT32
    ensures EvenFrames(nbFrames) != 0 ==> r == EvenFrames(nbFrames)
  {
    var even := EvenFrames(nbFrames);
    if even == 0 then FallbackFrames(duration, rateNum, rateDen) else even
  }

  /** The value `init` forces into the total-frame-count parameter. */
  function TotalParam(frameCount: nat): (r: int)
    requires frameCount < UINT32
  {
    ToInt32(if frameCount > 0 then frameCount else DefaultTotal)
  }

  /** For a header frame count that fits, the count is nb_frames + 1 rounded
      down to even: nb_frames itself or one more, and zero only for an empty
      header, which is when the fallback is used. */
  lemma EvenFramesRounding(nbFrames: int)
    requires 0 <= nbFrames < UINT32 - 1
    ensures EvenFrames(nbFrames) % 2 == 0
    ensures nbFrames <= EvenFrames(nbFrames) <= nbFrames + 1
    ensures EvenFrames(nbFrames) == 0 <==> nbFrames == 0
  {
  }

  /** The total is always positive for a count below 2^31: the header count
      itself, or 100 when there is none. */
  lemma TotalParamPositive(frameCount: nat)
    requires frameCount <= INT32_MAX
    ensures 0 < TotalParam(frameCount)
    ensures frameCount > 0 ==> TotalParam(frameCount) == frameCount
    ensures frameCount == 0 ==> TotalParam(frameCount) == DefaultTotal
  {
  }

  datatype Rational = Rational(num: int, den: int)

  /** The index `scrub` moves to: past the total it goes to the last frame
      (only when the header gave a frame count), and never below 0. */
  function ScrubTarget(index: int, frameCount: nat, total: int): (r: nat)
  {
    var i := if frameCount > 0 && index > total then total - 1 else index;
    if i < 0 then 0 else i
  }

  /** What the clamp guarantees and what it lets through: an index within
      [0, total] is kept as it is (so `total` itself is kept), anything above
      `total` goes to `total - 1`, and without a header count only negative
      indices change. */
  lemma ScrubTargetBounds(index: int, frameCount: nat, total: int)
    ensures frameCount > 0 && 0 <= total ==> ScrubTarget(index, frameCount, total) <= total
    ensures 0 <= index && (frameCount == 0 || index <= total) ==> ScrubTarget(index, frameCount, total) == index
    ensures frameCount > 0 && 1 <= total < index ==> ScrubTarget(index, frameCount, total) == total - 1
    ensures index < 0 ==> ScrubTarget(index, frameCount, total) == 0
  {
  }

  /** After `translate` with clamping (which `update` uses whenever the header
      gave a frame count) the index is already in [0, total], so the
      `total - 1` branch of `scrub` never applies. */
  lemma ClampedTranslationScrubs(index: int, crs: int, frameCount: nat, total: int)
    requires frameCount > 0 && 0 <= total
    ensures ScrubTarget(BlockEdit.TranslateIndex(index, crs, total, true), frameCount, total)
         == BlockEdit.TranslateIndex(index, crs, total, true)
  {
  }

  /** The divisor of the seek position is non-zero. */
  predicate SeekDefined(timeBase: Rational, rate: Rational)
  {
    rate.num != 0 ==> timeBase.num * rate.num != 0
  }

  /** The seek position, in time-base units, for frame i: i times the frame
      duration when the average frame rate is known, else i seconds in
      AV_TIME_BASE units. */
  function SeekPos(i: int, timeBase: Rational, rate: Rational): int
    requires SeekDefined(timeBase, rate)
  {
    if rate.num != 0 then CDiv(i * (timeBase.den * rate.den), timeBase.num * rate.num)
    else i * AV_TIME_BASE
  }

  /** With a positive time base and a non-negative frame rate the seek
      position of a frame is never negative, so `scrub` throws only for a
      stream whose header holds a negative rational. */
  lemma {:induction false} SeekPosNonNegative(i: nat, timeBase: Rational, rate: Rational)
    requires timeBase.num > 0 && timeBase.den > 0 && rate.num >= 0 && rate.den > 0
    ensures SeekDefined(timeBase, rate)
    ensures SeekPos(i, timeBase, rate) >= 0
  {
    assert timeBase.den * rate.den > 0;
    if rate.num != 0 {
      assert timeBase.num * rate.num > 0;
    }
  }

  /** The playback state `scrub` changes. */
  datatype Playback = Playback(current: int, decodeNext: bool, targetPts: int, eof: bool)

  /** `scrub`: no change for the current frame; the next frame is decoded
      without a seek; any other frame seeks to its position and restarts
      decoding there. A negative position or a failed seek throws before any
      state changes. */
  function Scrubbed(p: Playback, index: int, frameCount: nat, total: int,
                    timeBase: Rational, rate: Rational, seekOk: bool): (r: Result<Playback>)
    requires SeekDefined(timeBase, rate)
  {
    var i := ScrubTarget(index, frameCount, total);
    if i == p.current then Ok(p)
    else if i == p.current + 1 then Ok(p.(decodeNext := true, current := i))
    else
      var pos := SeekPos(i, timeBase, rate);
      if pos < 0 then Err("uh oh")
      else if !seekOk then Err("failed to seek")
      else Ok(Playback(i, true, pos, false))
  }

  /** A successful scrub lands on the clamped target with decoding pending
      (unless nothing moved), and scrubbing again to the same index is then a
      no-op. */
  lemma {:induction false} ScrubSettles(p: Playback, index: int, frameCount: nat, total: int,
                                        timeBase: Rational, rate: Rational, seekOk: bool)
    requires SeekDefined(timeBase, rate)
    requires Scrubbed(p, index, frameCount, total, timeBase, rate, seekOk).Ok?
    ensures Scrubbed(p, index, frameCount, total, timeBase, rate, seekOk).value.current == ScrubTarget(index, frameCount, total)
    ensures var q := Scrubbed(p, index, frameCount, total, timeBase, rate, seekOk).value;
            q == p || q.decodeNext
    ensures var q := Scrubbed(p, index, frameCount, total, timeBase, rate, seekOk).value;
            Scrubbed(q, index, frameCount, total, timeBase, rate, seekOk) == Ok(q)
  {
  }

  /** Stepping one frame forward never seeks and never touches the target
      timestamp or the end-of-stream flag; any other move seeks to
      `SeekPos` and clears the end-of-stream flag. */
  lemma ScrubSeeksOnlyOnJumps(p: Playback, index: int, frameCount: nat, total: int,
                              timeBase: Rational, rate: Rational, seekOk: bool)
    requires SeekDefined(timeBase, rate)
    ensures ScrubTarget(index, frameCount, total) == p.current + 1 ==>
            Scrubbed(p, index, frameCount, total, timeBase, rate, seekOk) ==
            Ok(Playback(p.current + 1, true, p.targetPts, p.eof))
    ensures var i := ScrubTarget(index, frameCount, total);
            i != p.current && i != p.current + 1 && seekOk && SeekPos(i, timeBase, rate) >= 0 ==>
            Scrubbed(p, index, frameCount, total, timeBase, rate, seekOk) ==
            Ok(Playback(i, true, SeekPos(i, timeBase, rate), false))
    ensures var i := ScrubTarget(index, frameCount, total);
            i != p.current && i != p.current + 1 && (!seekOk || SeekPos(i, timeBase, rate) < 0) ==>
            Scrubbed(p, index, frameCount, total, timeBase, rate, seekOk).Err?
  {
  }

  /** What the decode loop of `update` ended with: a picture (the bytes the
      plane copy leaves in the upload buffer), the end of the stream, or an
      exception; each with the end-of-stream flag the loop left behind. */
  datatype Decoded =
    | Picture(bytes: seq<bv8>, eof: bool)
    | StreamEnd(eof: bool)
    | Failed(msg: string, eof: bool)

  /** The whole state `update` changes. */
  datatype Reader = Reader(play: Playback, blanked: bool, forceScrub: bool, buffer: seq<bv8>)

  function Zeroes(n: nat): (r: seq<bv8>)
    ensures |r| == n && forall k :: 0 <= k < n ==> r[k] == 0
  {
    seq(n, _ => 0)
  }

  /** Inputs of one `update` call: the frame parameter, the block's four
      parameters, the stream's rationals, and the foreign outcomes. */
  datatype Call = Call(frame: int, crs: int, startBlock: int, endBlock: int,
                       timeBase: Rational, rate: Rational, seekOk: bool,
                       decoded: Decoded, paramsChanged: bool)

  predicate CallDefined(s: Reader, frameCount: nat, total: int, c: Call)
  {
    SeekDefined(c.timeBase, c.rate) && (frameCount > 0 ==> 0 <= total) &&
    (c.decoded.Picture? ==> |c.decoded.bytes| == |s.buffer|)
  }

  /** After the scrub: the decode step when decoding is pending. */
  function Decode(s: Reader, updated: bool, c: Call): (bool, Reader)
  {
    if !s.play.decodeNext then (updated, s)
    else match c.decoded
      case Picture(bytes, eof) =>
        (true, s.(play := s.play.(decodeNext := false, eof := eof), buffer := bytes))
      case StreamEnd(eof) => (false, s.(play := s.play.(eof := eof)))
      case Failed(_, eof) => (false, s.(play := s.play.(eof := eof)))
  }

  /** `update`: scrub to the translated frame; outside the block zero the
      buffer and report a change only for the first blanked frame; inside,
      clear the blank flag, consume a forced scrub, decode if pending, reset
      the target timestamp, and report a change if anything was decoded or a
      parameter changed. */
  function Updated(s: Reader, frameCount: nat, total: int, c: Call): (r: (Result<bool>, Reader))
    requires CallDefined(s, frameCount, total, c)
  {
    var index := BlockEdit.TranslateIndex(c.frame, c.crs, total, frameCount > 0);
    var scrub := Scrubbed(s.play, index, frameCount, total, c.timeBase, c.rate, c.seekOk);
    if scrub.Err? then (Err(scrub.msg), s)
    else
      var s1 := s.(play := scrub.value);
      if c.frame < c.startBlock || c.frame > c.endBlock then
        (Ok(!s1.blanked), s1.(blanked := true, buffer := Zeroes(|s1.buffer|)))
      else
        var s2 := s1.(blanked := false, forceScrub := false);
        var (updated, s3) := Decode(s2, s1.forceScrub, c);
        if s2.play.decodeNext && c.decoded.Failed? then (Err(c.decoded.msg), s3)
        else if s2.play.decodeNext && c.decoded.StreamEnd? then (Ok(false), s3)
        else (Ok(updated || c.paramsChanged), s3.(play := s3.play.(targetPts := 0)))
  }

  /** Outside the block the buffer is all zeroes and the change is reported
      exactly when the previous frame was not blanked; a second
      out-of-block frame in a row reports nothing. */
  lemma {:induction false} BlankReportedOnce(s: Reader, frameCount: nat, total: int, c: Call, c2: Call)
    requires CallDefined(s, frameCount, total, c)
    requires c.frame < c.startBlock || c.frame > c.endBlock
    requires Updated(s, frameCount, total, c).0.Ok?
    requires CallDefined(Updated(s, frameCount, total, c).1, frameCount, total, c2)
    requires c2.frame < c2.startBlock || c2.frame > c2.endBlock
    requires Updated(Updated(s, frameCount, total, c).1, frameCount, total, c2).0.Ok?
    ensures Updated(s, frameCount, total, c).0 == Ok(!s.blanked)
    ensures var t := Updated(s, frameCount, total, c).1;
            t.blanked && |t.buffer| == |s.buffer| && forall k :: 0 <= k < |t.buffer| ==> t.buffer[k] == 0
    ensures Updated(Updated(s, frameCount, total, c).1, frameCount, total, c2).0 == Ok(false)
  {
    var t := Updated(s, frameCount, total, c).1;
    assert t.blanked;
  }

  /** Inside the block the blank flag and the forced-scrub flag are cleared
      whatever happens after the scrub, and when nothing is pending and no
      parameter changed the update reports no change. */
  lemma InBlockClearsFlags(s: Reader, frameCount: nat, total: int, c: Call)
    requires CallDefined(s, frameCount, total, c)
    requires c.startBlock <= c.frame <= c.endBlock
    requires Updated(s, frameCount, total, c).0.Ok?
    ensures !Updated(s, frameCount, total, c).1.blanked
    ensures !Updated(s, frameCount, total, c).1.forceScrub
    ensures var index := BlockEdit.TranslateIndex(c.frame, c.crs, total, frameCount > 0);
            ScrubTarget(index, frameCount, total) == s.play.current && !s.play.decodeNext &&
            !s.forceScrub && !c.paramsChanged ==>
            Updated(s, frameCount, total, c).0 == Ok(false)
  {
  }

  /** A decoded picture replaces the buffer and clears the pending flag;
      the end of the stream reports no change and leaves decoding pending
      and the target timestamp as the scrub set it. */
  lemma DecodeOutcomes(s: Reader, frameCount: nat, total: int, c: Call)
    requires CallDefined(s, frameCount, total, c)
    requires c.startBlock <= c.frame <= c.endBlock
    requires Updated(s, frameCount, total, c).0.Ok?
    ensures var index := BlockEdit.TranslateIndex(c.frame, c.crs, total, frameCount > 0);
            var p := Scrubbed(s.play, index, frameCount, total, c.timeBase, c.rate, c.seekOk).value;
            var (r, t) := Updated(s, frameCount, total, c);
            (p.decodeNext && c.decoded.Picture? ==>
               r == Ok(true) && !t.play.decodeNext && t.buffer == c.decoded.bytes && t.play.targetPts == 0) &&
            (p.decodeNext && c.decoded.StreamEnd? ==>
               r == Ok(false) && t.play.decodeNext && t.play.targetPts == p.targetPts)
  {
  }

  class Ffmpeg {
    var frameCount: nat
    /** The total-frame-count parameter of the block. */
    var total: int
    var current: int
    var decodeNext: bool
    var targetPts: int
    var eof: bool
    var blanked: bool
    var forceScrub: bool
    /** The upload buffer. */
    var buffer: seq<bv8>

    function State(): Reader
      reads this
    {
      Reader(Playback(current, decodeNext, targetPts, eof), blanked, forceScrub, buffer)
    }

    /** The stream-header part of `init`: the frame count, the total
        parameter, and the current frame. The flags keep whatever values
        the object was built with. */
    method Init(nbFrames: int, duration: int, rate: Rational)
      requires INT64_MIN <= nbFrames < INT64_MAX
      requires EvenFrames(nbFrames) == 0 ==> rate.den != 0
      modifies this
      ensures frameCount == FrameCount(nbFrames, duration, rate.num, rate.den)
      ensures total == TotalParam(frameCount)
      ensures current == 0
      ensures decodeNext == old(decodeNext) && targetPts == old(targetPts) && eof == old(eof)
      ensures blanked == old(blanked) && forceScrub == old(forceScrub) && buffer == old(buffer)
    {
      frameCount := Wrap32(nbFrames + 1 - CRem(nbFrames + 1, 2));
      if frameCount == 0 {
        frameCount := Wrap32(CDiv(CDiv(duration * rate.num, rate.den), AV_TIME_BASE));
      }
      total := ToInt32(if frameCount > 0 then frameCount else DefaultTotal);
      current := 0;
    }

    method Scrub(index: int, timeBase: Rational, rate: Rational, seekOk: bool) returns (r: Result<()>)
      requires SeekDefined(timeBase, rate)
      modifies this
      ensures var s := Scrubbed(old(State().play), index, frameCount, total, timeBase, rate, seekOk);
              (s.Ok? ==> r.Ok? && State().play == s.value) && (s.Err? ==> r == Err(s.msg) && State() == old(State()))
      ensures frameCount == old(frameCount) && total == old(total)
      ensures blanked == old(blanked) && forceScrub == old(forceScrub) && buffer == old(buffer)
    {
      var i := index;
      if frameCount > 0 && i > total {
        i := total - 1;
      }
      i := if i < 0 then 0 else i;
      if i == current {
        return Ok(());
      } else if i == current + 1 {
        decodeNext := true;
        current := i;
      } else {
        var pos := 0;
        if rate.num != 0 {
          pos := CDiv(i * (timeBase.den * rate.den), timeBase.num * rate.num);
        } else {
          pos := i * AV_TIME_BASE;
        }
        if pos < 0 {
          return Err("uh oh");
        }
        if !seekOk {
          return Err("failed to seek");
        }
        decodeNext := true;
        current := i;
        targetPts := pos;
        eof := false;
      }
      r := Ok(());
    }

    method Update(c: Call) returns (r: Result<bool>)
      requires CallDefined(State(), frameCount, total, c)
      modifies this
      ensures frameCount == old(frameCount) && total == old(total)
      ensures (r, State()) == Updated(old(State()), frameCount, total, c)
    {
      ghost var s0 := State();
      var index := BlockEdit.TranslateIndex(c.frame, c.crs, total, frameCount > 0);
      ghost var scrub := Scrubbed(s0.play, index, frameCount, total, c.timeBase, c.rate, c.seekOk);
      var scrubbed := Scrub(index, c.timeBase, c.rate, c.seekOk);
      if scrubbed.Err? {
        return Err(scrubbed.msg);
      }
      assert State() == s0.(play := scrub.value);
      if c.frame < c.startBlock || c.frame > c.endBlock {
        buffer := Zeroes(|buffer|);
        var updated := !blanked;
        blanked := true;
        return Ok(updated);
      }
      blanked := false;
      var updated := false;
      if forceScrub {
        forceScrub := false;
        updated := true;
      }
      if decodeNext {
        eof := c.decoded.eof;
        match c.decoded {
          case Picture(bytes, _) =>
            buffer := bytes;
          case StreamEnd(_) =>
            return Ok(false);
          case Failed(msg, _) =>
            return Err(msg);
        }
        decodeNext := false;
        updated := true;
      }
      targetPts := 0;
      r := Ok(updated || c.paramsChanged);
    }
  }
}
