// The GPU-to-host image downloader (src/outputs/image_downloader.cpp): a
// buffer sized by the output format, conversion kernels with their push
// arguments, and a command sequence dispatch(es) -> barrier -> copy -> barrier.
module ImageDownloader {
  datatype OutFormat = Yuv420p | HalfRgba | Uint8Rgba | Uint8Rgbx

  datatype DownloadKernel =
    | QuantiseLuma | QuantiseChromaU | QuantiseChromaV
    | ImageToHalfBuffer | ImageToUint8RgbaBuffer | ImageToUint8RgbxBuffer

  datatype Arg = SourceImage | GpuBuffer

  datatype Command =
    | Dispatch(kernel: DownloadKernel, x: int, y: int)
    | Barrier
    | CopyToStaging(bytes: nat)

  /** `_buffer_size()`: 1.5 bytes per pixel (truncated) for 4:2:0, four
      16-bit channels for half, four bytes for the 8-bit formats. */
  function BufferSize(w: nat, h: nat, f: OutFormat): nat
  {
    match f
    case Yuv420p => w * h * 3 / 2
    case HalfRgba => w * h * 4 * 2
    case Uint8Rgba => w * h * 4
    case Uint8Rgbx => w * h * 4
  }

  /** The kernels an output format drives, in dispatch order. */
  function KernelsFor(f: OutFormat): seq<DownloadKernel>
  {
    match f
    case Yuv420p => [QuantiseLuma, QuantiseChromaU, QuantiseChromaV]
    case HalfRgba => [ImageToHalfBuffer]
    case Uint8Rgba => [ImageToUint8RgbaBuffer]
    case Uint8Rgbx => [ImageToUint8RgbxBuffer]
  }

  /** The push arguments `init` sets, as (kernel, name) -> components:
      "_size" = (w, h) on the three 4:2:0 kernels, "_srgb" = 1 on the 8-bit
      kernels, nothing for half. */
  function InitPushArgs(w: nat, h: nat, f: OutFormat): map<(DownloadKernel, string), seq<int>>
  {
    match f
    case Yuv420p =>
      map[(QuantiseLuma, "_size") := [w, h],
          (QuantiseChromaU, "_size") := [w, h],
          (QuantiseChromaV, "_size") := [w, h]]
    case HalfRgba => map[]
    case Uint8Rgba => map[(ImageToUint8RgbaBuffer, "_srgb") := [1]]
    case Uint8Rgbx => map[(ImageToUint8RgbxBuffer, "_srgb") := [1]]
  }

  /** The dispatches of `commands()`: full w x h for the RGBA formats; for
      4:2:0 the luma pass over (w/4) x h and each chroma pass over (w/8) x h
      (integer division, as `_width / 4` on int32). */
  function Dispatches(w: nat, h: nat, f: OutFormat): seq<Command>
  {
    match f
    case HalfRgba => [Dispatch(ImageToHalfBuffer, w, h)]
    case Uint8Rgba => [Dispatch(ImageToUint8RgbaBuffer, w, h)]
    case Uint8Rgbx => [Dispatch(ImageToUint8RgbxBuffer, w, h)]
    case Yuv420p =>
      [Dispatch(QuantiseLuma, w / 4, h), Dispatch(QuantiseChromaU, w / 8, h),
       Dispatch(QuantiseChromaV, w / 8, h)]
  }

  function CommandPlan(w: nat, h: nat, f: OutFormat): seq<Command>
  {
    Dispatches(w, h, f) + [Barrier, CopyToStaging(BufferSize(w, h, f)), Barrier]
  }

  /** Every kernel of the format is dispatched exactly once, in order, and
      nothing else is dispatched. */
  lemma DispatchesFollowKernels(w: nat, h: nat, f: OutFormat)
    ensures |Dispatches(w, h, f)| == |KernelsFor(f)|
    ensures forall i :: 0 <= i < |Dispatches(w, h, f)| ==>
              Dispatches(w, h, f)[i].Dispatch? && Dispatches(w, h, f)[i].kernel == KernelsFor(f)[i]
  {
  }

  /** 4:2:0 group counts: four luma pixels and eight chroma pixels per
      invocation along x cover the row up to the remainder. */
  lemma YuvDispatchCover(w: nat, h: nat)
    ensures Dispatches(w, h, Yuv420p)[0].x * 4 <= w < Dispatches(w, h, Yuv420p)[0].x * 4 + 4
    ensures Dispatches(w, h, Yuv420p)[1].x * 8 <= w < Dispatches(w, h, Yuv420p)[1].x * 8 + 8
    ensures Dispatches(w, h, Yuv420p)[1] == Dispatches(w, h, Yuv420p)[2].(kernel := QuantiseChromaU)
    ensures forall i :: 0 <= i < 3 ==> Dispatches(w, h, Yuv420p)[i].y == h
  {
  }

  /** Exactly one staging copy, of the whole buffer, after all dispatches and
      between two barriers. */
  lemma CommandPlanCopiesBuffer(w: nat, h: nat, f: OutFormat)
    ensures var p := CommandPlan(w, h, f);
      var k := |KernelsFor(f)|;
      |p| == k + 3 && p[k] == Barrier && p[k + 1] == CopyToStaging(BufferSize(w, h, f)) &&
      p[k + 2] == Barrier &&
      (forall i :: 0 <= i < |p| && p[i].CopyToStaging? ==> i == k + 1) &&
      (forall i :: 0 <= i < k ==> p[i].Dispatch?)
  {
    DispatchesFollowKernels(w, h, f);
  }

  /** Push arguments go only to kernels of the format; the 8-bit kernels get
      "_srgb" = 1 and every 4:2:0 kernel gets "_size" = (w, h). */
  lemma InitPushArgsTargets(w: nat, h: nat, f: OutFormat)
    ensures forall key :: key in InitPushArgs(w, h, f) ==> key.0 in KernelsFor(f)
    ensures f == Uint8Rgba || f == Uint8Rgbx ==>
              (KernelsFor(f)[0], "_srgb") in InitPushArgs(w, h, f) &&
              InitPushArgs(w, h, f)[(KernelsFor(f)[0], "_srgb")] == [1]
    ensures f == Yuv420p ==> forall k :: k in KernelsFor(f) ==>
              (k, "_size") in InitPushArgs(w, h, f) && InitPushArgs(w, h, f)[(k, "_size")] == [w, h]
    ensures f == HalfRgba ==> InitPushArgs(w, h, f) == map[]
  {
  }

  /** Buffer sizes from the components: 8 bytes per pixel for half, 4 for the
      8-bit formats, and a truncated 1.5 for 4:2:0. */
  lemma BufferSizeBounds(w: nat, h: nat, f: OutFormat)
    ensures f == HalfRgba ==> BufferSize(w, h, f) == 8 * (w * h)
    ensures f == Uint8Rgba || f == Uint8Rgbx ==> BufferSize(w, h, f) == 4 * (w * h)
    ensures f == Yuv420p ==> 2 * BufferSize(w, h, f) <= 3 * (w * h) < 2 * BufferSize(w, h, f) + 2
  {
  }

  class ImageDownloader {
    var width: nat
    var height: nat
    var format: OutFormat
    /** Argument bindings of the format's kernels. */
    var args: map<DownloadKernel, map<nat, Arg>>
    /** Push-argument values set by name, per kernel. */
    var pushArgs: map<(DownloadKernel, string), seq<int>>
    var log: seq<Command>

    /** Header defaults: 1 x 1, yuv420p. */
    constructor ()
      ensures width == 1 && height == 1 && format == Yuv420p
      ensures args == map[] && pushArgs == map[] && log == []
    {
      width, height, format := 1, 1, Yuv420p;
      args, pushArgs, log := map[], map[], [];
    }

    /** `init`: records the image size and format, binds slot 0 of each of
        the format's kernels to the image and slot 1 to the GPU buffer, and
        sets the format's push arguments. */
    method Init(w: nat, h: nat, f: OutFormat)
      modifies this
      ensures width == w && height == h && format == f
      ensures forall k :: k in KernelsFor(f) ==> k in args && args[k] == map[0 := SourceImage, 1 := GpuBuffer]
      ensures forall k :: k in args && k !in KernelsFor(f) ==> k in old(args) && args[k] == old(args)[k]
      ensures pushArgs == old(pushArgs) + InitPushArgs(w, h, f)
      ensures log == old(log)
    {
      width, height, format := w, h, f;
      args := args + map k | k in KernelsFor(f) :: map[0 := SourceImage, 1 := GpuBuffer];
      pushArgs := pushArgs + InitPushArgs(w, h, f);
    }

    /** `commands`: appends the plan for the recorded size and format. */
    method Commands()
      modifies this
      ensures log == old(log) + CommandPlan(width, height, format)
      ensures width == old(width) && height == old(height) && format == old(format)
      ensures args == old(args) && pushArgs == old(pushArgs)
    {
      log := log + Dispatches(width, height, format);
      log := log + [Barrier];
      log := log + [CopyToStaging(BufferSize(width, height, format))];
      log := log + [Barrier];
    }
  }
}
