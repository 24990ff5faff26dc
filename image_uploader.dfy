// The host-to-GPU image uploader (src/inputs/image_uploader.cpp): a staging
// buffer sized by the input format, one conversion kernel chosen by that
// format, and a command sequence copy -> barrier -> dispatch.
module ImageUploader {
  datatype InFormat = Yuv420p | HalfRgba | LibrawShort | BayerShort
  datatype OutFormat = Half16 | Float32

  /** The four conversion kernels, one per input format. */
  datatype UploadKernel = Yuv420 | HalfBufferToImage | Bayer | LibrawShortKernel

  /** What a kernel argument slot is bound to. */
  datatype Arg = GpuBuffer | OutputImage

  datatype Command =
    | CopyFromStaging(bytes: nat)
    | Barrier
    | Dispatch(kernel: UploadKernel, x: int, y: int)

  const R16G16B16A16_SFLOAT: int := 97
  const R32G32B32A32_SFLOAT: int := 109

  /** `_buffer_size()`: 4 channels of 16 bits for the half and raw formats,
      one and a half bytes per pixel for planar 4:2:0 (the double product
      truncated to an integer). */
  function BufferSize(w: nat, h: nat, f: InFormat): nat
  {
    match f
    case HalfRgba => w * h * 4 * 2
    case Yuv420p => w * h * 3 / 2
    case BayerShort => w * h * 4 * 2
    case LibrawShort => w * h * 4 * 2
  }

  /** `_output_format()`. */
  function OutputFormat(f: OutFormat): int
  {
    match f
    case Half16 => R16G16B16A16_SFLOAT
    case Float32 => R32G32B32A32_SFLOAT
  }

  /** The kernel `init` creates for an input format. */
  function KernelFor(f: InFormat): UploadKernel
  {
    match f
    case Yuv420p => Yuv420
    case HalfRgba => HalfBufferToImage
    case BayerShort => Bayer
    case LibrawShort => LibrawShortKernel
  }

  /** `commands()` for a configured uploader. */
  function CommandPlan(w: nat, h: nat, f: InFormat): seq<Command>
  {
    [CopyFromStaging(BufferSize(w, h, f)), Barrier, Dispatch(KernelFor(f), w, h)]
  }

  /** Each input format has its own kernel. */
  lemma KernelForInjective(a: InFormat, b: InFormat)
    ensures KernelFor(a) == KernelFor(b) <==> a == b
  {
  }

  /** The 16-bit RGBA formats need two bytes for each of four channels; the
      4:2:0 buffer holds a full luma plane plus half as much again, rounded
      down. */
  lemma BufferSizeBounds(w: nat, h: nat, f: InFormat)
    ensures f != Yuv420p ==> BufferSize(w, h, f) == 8 * (w * h)
    ensures f == Yuv420p ==> 2 * BufferSize(w, h, f) <= 3 * (w * h) < 2 * BufferSize(w, h, f) + 2
    ensures f == Yuv420p ==> w * h <= BufferSize(w, h, f)
  {
  }

  /** The output formats are distinct Vulkan formats, each four channels. */
  lemma OutputFormatInjective(a: OutFormat, b: OutFormat)
    ensures OutputFormat(a) == OutputFormat(b) <==> a == b
    ensures OutputFormat(a) in {R16G16B16A16_SFLOAT, R32G32B32A32_SFLOAT}
  {
  }

  /** The plan copies exactly the buffer, once, before the single full-size
      dispatch of the format's kernel. */
  lemma CommandPlanShape(w: nat, h: nat, f: InFormat)
    ensures |CommandPlan(w, h, f)| == 3
    ensures forall i :: 0 <= i < 3 && CommandPlan(w, h, f)[i].CopyFromStaging? ==>
              i == 0 && CommandPlan(w, h, f)[i].bytes == BufferSize(w, h, f)
    ensures forall i :: 0 <= i < 3 && CommandPlan(w, h, f)[i].Dispatch? ==>
              i == 2 && CommandPlan(w, h, f)[i] == Dispatch(KernelFor(f), w, h)
  {
  }

  class ImageUploader {
    var width: nat
    var height: nat
    var inFormat: InFormat
    var outFormat: OutFormat
    /** The kernels created so far, in `kernels()` order. */
    var kernels: seq<UploadKernel>
    /** Argument bindings of each created kernel. */
    var args: map<UploadKernel, map<nat, Arg>>
    var log: seq<Command>

    /** The defaults of the header: 1 x 1, yuv420p in, float32 out. */
    constructor ()
      ensures width == 1 && height == 1 && inFormat == Yuv420p && outFormat == Float32
      ensures kernels == [] && args == map[] && log == []
    {
      width, height := 1, 1;
      inFormat, outFormat := Yuv420p, Float32;
      kernels, args, log := [], map[], [];
    }

    /** `init`: records the size and formats, creates the one kernel of the
        input format and binds slot 0 to the GPU buffer and slot 1 to the
        output image. */
    method Init(w: nat, h: nat, i: InFormat, o: OutFormat)
      modifies this
      ensures width == w && height == h && inFormat == i && outFormat == o
      ensures kernels == old(kernels) + [KernelFor(i)]
      ensures args == old(args)[KernelFor(i) := map[0 := GpuBuffer, 1 := OutputImage]]
      ensures log == old(log)
    {
      width, height, inFormat, outFormat := w, h, i, o;
      var k := KernelFor(i);
      kernels := kernels + [k];
      args := args[k := map[0 := GpuBuffer, 1 := OutputImage]];
    }

    /** `commands`: appends the plan for the recorded size and format. */
    method Commands()
      modifies this
      ensures log == old(log) + CommandPlan(width, height, inFormat)
      ensures width == old(width) && height == old(height) && inFormat == old(inFormat)
      ensures outFormat == old(outFormat) && kernels == old(kernels) && args == old(args)
    {
      log := log + [CopyFromStaging(BufferSize(width, height, inFormat))];
      log := log + [Barrier];
      log := log + [Dispatch(KernelFor(inFormat), width, height)];
    }
  }
}
