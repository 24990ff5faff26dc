// Image layout tracking (src/image.cpp, src/image.hpp): every layout change
// records an image memory barrier whose access masks are fixed functions of
// the old and the new layout, as in the "Synchronization and Cache Control"
// chapter of the Vulkan specification (image layout transitions); copies
// move images into transfer layouts and back. Command recording is an
// appended log on a command-buffer object; the GPU objects themselves are
// integer handles.
module Images {
  import opened Wrappers

  // VkImageLayout values.
  const UNDEFINED: int := 0
  const GENERAL: int := 1
  const COLOR_ATTACHMENT_OPTIMAL: int := 2
  const DEPTH_STENCIL_ATTACHMENT_OPTIMAL: int := 3
  const SHADER_READ_ONLY_OPTIMAL: int := 5
  const TRANSFER_SRC_OPTIMAL: int := 6
  const TRANSFER_DST_OPTIMAL: int := 7
  const PREINITIALIZED: int := 8

  // VkAccessFlagBits values.
  const SHADER_READ: bv32 := 0x20
  const SHADER_WRITE: bv32 := 0x40
  const COLOR_ATTACHMENT_WRITE: bv32 := 0x100
  const DEPTH_STENCIL_ATTACHMENT_WRITE: bv32 := 0x400
  const TRANSFER_READ: bv32 := 0x800
  const TRANSFER_WRITE: bv32 := 0x1000
  const HOST_WRITE: bv32 := 0x4000

  /** VK_FORMAT_R32G32B32A32_SFLOAT. */
  const R32G32B32A32_SFLOAT: int := 109

  datatype Command =
    | Barrier(image: int, oldLayout: int, newLayout: int, srcAccess: bv32, dstAccess: bv32)
    | CopyImage(src: int, srcLayout: int, dst: int, dstLayout: int)
    | CopyBufferToImage(dst: int, dstLayout: int)

  /** The layouts the access-mask tables name. */
  predicate Listed(layout: int)
  {
    layout in {UNDEFINED, PREINITIALIZED, COLOR_ATTACHMENT_OPTIMAL, DEPTH_STENCIL_ATTACHMENT_OPTIMAL,
               TRANSFER_SRC_OPTIMAL, TRANSFER_DST_OPTIMAL, SHADER_READ_ONLY_OPTIMAL}
  }

  /** The source access mask for leaving a layout: the writes (or reads)
      that must finish first; 0 for a layout the table does not list. */
  function SrcAccess(layout: int): (r: bv32)
    ensures layout == UNDEFINED ==> r == 0
    ensures layout == PREINITIALIZED ==> r == HOST_WRITE
    ensures layout == TRANSFER_SRC_OPTIMAL ==> r == TRANSFER_READ
    ensures layout == TRANSFER_DST_OPTIMAL ==> r == TRANSFER_WRITE
    ensures !Listed(layout) ==> r == 0
  {
    if layout == PREINITIALIZED then HOST_WRITE
    else if layout == COLOR_ATTACHMENT_OPTIMAL then COLOR_ATTACHMENT_WRITE
    else if layout == DEPTH_STENCIL_ATTACHMENT_OPTIMAL then DEPTH_STENCIL_ATTACHMENT_WRITE
    else if layout == TRANSFER_SRC_OPTIMAL then TRANSFER_READ
    else if layout == TRANSFER_DST_OPTIMAL then TRANSFER_WRITE
    else if layout == SHADER_READ_ONLY_OPTIMAL then SHADER_READ
    else 0
  }

  /** The destination access mask for entering a layout; 0 for a layout
      the table does not list. */
  function DstAccess(layout: int): (r: bv32)
    ensures layout == TRANSFER_DST_OPTIMAL ==> r == TRANSFER_WRITE
    ensures layout == TRANSFER_SRC_OPTIMAL ==> r == TRANSFER_READ
    ensures layout == SHADER_READ_ONLY_OPTIMAL ==> r == SHADER_READ
    ensures !Listed(layout) || layout == UNDEFINED || layout == PREINITIALIZED ==> r == 0
  {
    if layout == TRANSFER_DST_OPTIMAL then TRANSFER_WRITE
    else if layout == TRANSFER_SRC_OPTIMAL then TRANSFER_READ
    else if layout == COLOR_ATTACHMENT_OPTIMAL then COLOR_ATTACHMENT_WRITE
    else if layout == DEPTH_STENCIL_ATTACHMENT_OPTIMAL then DEPTH_STENCIL_ATTACHMENT_WRITE
    else if layout == SHADER_READ_ONLY_OPTIMAL then SHADER_READ
    else 0
  }

  /** The barrier `set_layout` records for `image` going from `from` to
      `to`: entering SHADER_READ_ONLY with nothing to wait for waits for
      host and transfer writes instead. */
  function Transition(image: int, from: int, to: int): (r: Command)
    ensures r.Barrier? && r.image == image && r.oldLayout == from && r.newLayout == to
    ensures r.dstAccess == DstAccess(to)
    ensures to != SHADER_READ_ONLY_OPTIMAL ==> r.srcAccess == SrcAccess(from)
    ensures to == SHADER_READ_ONLY_OPTIMAL && SrcAccess(from) == 0 ==> r.srcAccess == HOST_WRITE | TRANSFER_WRITE
    ensures to == SHADER_READ_ONLY_OPTIMAL && SrcAccess(from) != 0 ==> r.srcAccess == SrcAccess(from)
  {
    var src := if to == SHADER_READ_ONLY_OPTIMAL && SrcAccess(from) == 0
               then HOST_WRITE | TRANSFER_WRITE else SrcAccess(from);
    Barrier(image, from, to, src, DstAccess(to))
  }

  /** One command's effect on what is known of `image`'s layout `at`:
      a barrier on the image must leave `at` and moves it on, a copy
      naming the image must use `at`; `None` when the command disagrees. */
  function Step(c: Command, image: int, at: int): Option<int>
  {
    match c
    case Barrier(i, o, n, _, _) =>
      if i != image then Some(at) else if o == at then Some(n) else None
    case CopyImage(s, sl, d, dl) =>
      if (s == image && sl != at) || (d == image && dl != at) then None else Some(at)
    case CopyBufferToImage(d, dl) =>
      if d == image && dl != at then None else Some(at)
  }

  /** Replays the commands that concern `image` from layout `from`: the
      layout reached, or `None` at the first command that disagrees. */
  function Trail(cmds: seq<Command>, image: int, from: int): Option<int>
  {
    if cmds == [] then Some(from)
    else
      match Trail(cmds[..|cmds| - 1], image, from)
      case None => None
      case Some(at) => Step(cmds[|cmds| - 1], image, at)
  }

  /** Where a copy leaves an image that started in `original` and was moved
      to `transfer`: back in `original`, unless that was UNDEFINED or
      PREINITIALIZED. */
  function Restored(original: int, transfer: int): int
  {
    if original != UNDEFINED && original != PREINITIALIZED then original else transfer
  }

  /** The commands of the image-to-image `copy`. */
  function CopySteps(dst: int, dstLayout: int, src: int, srcLayout: int): seq<Command>
  {
    [Transition(dst, dstLayout, TRANSFER_DST_OPTIMAL),
     Transition(src, srcLayout, TRANSFER_SRC_OPTIMAL),
     CopyImage(src, TRANSFER_SRC_OPTIMAL, dst, TRANSFER_DST_OPTIMAL)] +
    (if Restored(srcLayout, TRANSFER_SRC_OPTIMAL) == srcLayout
     then [Transition(src, TRANSFER_SRC_OPTIMAL, srcLayout)] else []) +
    (if Restored(dstLayout, TRANSFER_DST_OPTIMAL) == dstLayout
     then [Transition(dst, TRANSFER_DST_OPTIMAL, dstLayout)] else [])
  }

  /** The commands of the buffer-to-image `copy`. */
  function UploadSteps(dst: int, dstLayout: int): seq<Command>
  {
    [Transition(dst, dstLayout, TRANSFER_DST_OPTIMAL), CopyBufferToImage(dst, TRANSFER_DST_OPTIMAL)] +
    (if Restored(dstLayout, TRANSFER_DST_OPTIMAL) == dstLayout
     then [Transition(dst, TRANSFER_DST_OPTIMAL, dstLayout)] else [])
  }

  lemma TrailAppend(a: seq<Command>, c: Command, image: int, from: int, at: int)
    requires Trail(a, image, from) == Some(at)
    ensures Trail(a + [c], image, from) == Step(c, image, at)
  {
    assert (a + [c])[..|a + [c]| - 1] == a;
  }

  /** The copy's commands are consistent for the destination image. */
  lemma CopyStepsDst(dst: int, dstLayout: int, src: int, srcLayout: int)
    requires dst != src
    ensures Trail(CopySteps(dst, dstLayout, src, srcLayout), dst, dstLayout) ==
            Some(Restored(dstLayout, TRANSFER_DST_OPTIMAL))
  {
    var t1 := Transition(dst, dstLayout, TRANSFER_DST_OPTIMAL);
    var t2 := Transition(src, srcLayout, TRANSFER_SRC_OPTIMAL);
    var cp := CopyImage(src, TRANSFER_SRC_OPTIMAL, dst, TRANSFER_DST_OPTIMAL);
    var a := [t1, t2, cp];
    assert Trail(a, dst, dstLayout) == Some(TRANSFER_DST_OPTIMAL) by {
      TrailAppend([], t1, dst, dstLayout, dstLayout);
      assert [] + [t1] == [t1];
      TrailAppend([t1], t2, dst, dstLayout, TRANSFER_DST_OPTIMAL);
      assert [t1] + [t2] == [t1, t2];
      TrailAppend([t1, t2], cp, dst, dstLayout, TRANSFER_DST_OPTIMAL);
      assert [t1, t2] + [cp] == a;
    }
    var rs := if Restored(srcLayout, TRANSFER_SRC_OPTIMAL) == srcLayout
              then [Transition(src, TRANSFER_SRC_OPTIMAL, srcLayout)] else [];
    assert Trail(a + rs, dst, dstLayout) == Some(TRANSFER_DST_OPTIMAL) by {
      if rs != [] {
        TrailAppend(a, rs[0], dst, dstLayout, TRANSFER_DST_OPTIMAL);
      } else {
        assert a + rs == a;
      }
    }
    var rd := if Restored(dstLayout, TRANSFER_DST_OPTIMAL) == dstLayout
              then [Transition(dst, TRANSFER_DST_OPTIMAL, dstLayout)] else [];
    assert Trail(a + rs + rd, dst, dstLayout) == Some(Restored(dstLayout, TRANSFER_DST_OPTIMAL)) by {
      if rd != [] {
        TrailAppend(a + rs, rd[0], dst, dstLayout, TRANSFER_DST_OPTIMAL);
      } else {
        assert a + rs + rd == a + rs;
      }
    }
  }

  /** The copy's commands are consistent for the source image. */
  lemma CopyStepsSrc(dst: int, dstLayout: int, src: int, srcLayout: int)
    requires dst != src
    ensures Trail(CopySteps(dst, dstLayout, src, srcLayout), src, srcLayout) ==
            Some(Restored(srcLayout, TRANSFER_SRC_OPTIMAL))
  {
    var t1 := Transition(dst, dstLayout, TRANSFER_DST_OPTIMAL);
    var t2 := Transition(src, srcLayout, TRANSFER_SRC_OPTIMAL);
    var cp := CopyImage(src, TRANSFER_SRC_OPTIMAL, dst, TRANSFER_DST_OPTIMAL);
    var a := [t1, t2, cp];
    assert Trail(a, src, srcLayout) == Some(TRANSFER_SRC_OPTIMAL) by {
      TrailAppend([], t1, src, srcLayout, srcLayout);
      assert [] + [t1] == [t1];
      TrailAppend([t1], t2, src, srcLayout, srcLayout);
      assert [t1] + [t2] == [t1, t2];
      TrailAppend([t1, t2], cp, src, srcLayout, TRANSFER_SRC_OPTIMAL);
      assert [t1, t2] + [cp] == a;
    }
    var rs := if Restored(srcLayout, TRANSFER_SRC_OPTIMAL) == srcLayout
              then [Transition(src, TRANSFER_SRC_OPTIMAL, srcLayout)] else [];
    assert Trail(a + rs, src, srcLayout) == Some(Restored(srcLayout, TRANSFER_SRC_OPTIMAL)) by {
      if rs != [] {
        TrailAppend(a, rs[0], src, srcLayout, TRANSFER_SRC_OPTIMAL);
      } else {
        assert a + rs == a;
      }
    }
    var rd := if Restored(dstLayout, TRANSFER_DST_OPTIMAL) == dstLayout
              then [Transition(dst, TRANSFER_DST_OPTIMAL, dstLayout)] else [];
    assert Trail(a + rs + rd, src, srcLayout) == Some(Restored(srcLayout, TRANSFER_SRC_OPTIMAL)) by {
      if rd != [] {
        TrailAppend(a + rs, rd[0], src, srcLayout, Restored(srcLayout, TRANSFER_SRC_OPTIMAL));
      } else {
        assert a + rs + rd == a + rs;
      }
    }
  }

  /** The upload's commands are consistent for the destination image, which
      ends where `Restored` says. */
  lemma UploadStepsTrail(dst: int, dstLayout: int)
    ensures Trail(UploadSteps(dst, dstLayout), dst, dstLayout) == Some(Restored(dstLayout, TRANSFER_DST_OPTIMAL))
  {
    var t1 := Transition(dst, dstLayout, TRANSFER_DST_OPTIMAL);
    var cp := CopyBufferToImage(dst, TRANSFER_DST_OPTIMAL);
    assert Trail([t1, cp], dst, dstLayout) == Some(TRANSFER_DST_OPTIMAL) by {
      TrailAppend([], t1, dst, dstLayout, dstLayout);
      assert [] + [t1] == [t1];
      TrailAppend([t1], cp, dst, dstLayout, TRANSFER_DST_OPTIMAL);
      assert [t1] + [cp] == [t1, cp];
    }
    var rd := if Restored(dstLayout, TRANSFER_DST_OPTIMAL) == dstLayout
              then [Transition(dst, TRANSFER_DST_OPTIMAL, dstLayout)] else [];
    if rd != [] {
      TrailAppend([t1, cp], rd[0], dst, dstLayout, TRANSFER_DST_OPTIMAL);
    } else {
      assert [t1, cp] + rd == [t1, cp];
    }
  }

  /** `size_in_memory`: 16 bytes a pixel for four 32-bit floats, otherwise
      one byte a pixel. */
  function SizeInMemory(width: int, height: int, format: int): (r: int)
    ensures format == R32G32B32A32_SFLOAT ==> r == width * height * 16
    ensures format != R32G32B32A32_SFLOAT ==> r == width * height
  {
    var sz := width * height;
    if format == R32G32B32A32_SFLOAT then sz * (4 * 4) else sz
  }

  /** `std::clamp(v, lo, hi)`, which needs `lo <= hi`. */
  function Clamp(v: int, lo: int, hi: int): (r: int)
    requires lo <= hi
    ensures lo <= r <= hi
    ensures lo <= v <= hi ==> r == v
  {
    if v < lo then lo else if hi < v then hi else v
  }

  /** The command buffer commands are recorded into. */
  class CommandBuffer {
    var cmds: seq<Command>

    constructor ()
      ensures cmds == []
    {
      cmds := [];
    }
  }

  class Image {
    /** The `VkImage` handle. */
    const handle: int
    var format: int
    var width: int
    var height: int
    var layout: int
    var isAllocated: bool
    /** `_ui_desc_set`, 0 for VK_NULL_HANDLE. */
    var uiDescSet: int
    /** The layouts the image was registered as a UI texture with, in order. */
    var textures: seq<int>

    constructor (handle: int)
      ensures this.handle == handle && !isAllocated && uiDescSet == 0 && textures == []
    {
      this.handle := handle;
      isAllocated := false;
      uiDescSet := 0;
      textures := [];
    }

    /** `create_image`: records format and size; the image starts
        UNDEFINED. */
    method CreateImage(format: int, width: int, height: int)
      modifies this
      ensures this.format == format && this.width == width && this.height == height
      ensures layout == UNDEFINED
      ensures isAllocated == old(isAllocated) && uiDescSet == old(uiDescSet) && textures == old(textures)
    {
      this.format, this.width, this.height := format, width, height;
      layout := UNDEFINED;
    }

    method SizeInMemoryOf() returns (r: int)
      ensures r == SizeInMemory(width, height, format)
      ensures format == R32G32B32A32_SFLOAT ==> r == width * height * 16
    {
      r := SizeInMemory(width, height, format);
    }

    /** `set_layout`: records the transition barrier and takes the new
        layout. */
    method SetLayout(buf: CommandBuffer, newLayout: int)
      modifies this, buf
      ensures buf.cmds == old(buf.cmds) + [Transition(handle, old(layout), newLayout)]
      ensures layout == newLayout
      ensures Trail([Transition(handle, old(layout), newLayout)], handle, old(layout)) == Some(layout)
      ensures format == old(format) && width == old(width) && height == old(height)
      ensures isAllocated == old(isAllocated) && uiDescSet == old(uiDescSet) && textures == old(textures)
    {
      var b := Transition(handle, layout, newLayout);
      buf.cmds := buf.cmds + [b];
      assert [b][..0] == [];
      layout := newLayout;
    }

    /** `barrier_info`: a barrier that keeps the current layout and orders
        shader reads and writes. */
    method BarrierInfo() returns (b: Command)
      ensures b == Barrier(handle, layout, layout, SHADER_READ | SHADER_WRITE, SHADER_READ | SHADER_WRITE)
      ensures Trail([b], handle, layout) == Some(layout)
    {
      b := Barrier(handle, layout, layout, SHADER_READ | SHADER_WRITE, SHADER_READ | SHADER_WRITE);
      assert [b][..0] == [];
    }

    /** Image-to-image `copy`: both images go to their transfer layouts
        for the copy and come back to where they were, except from UNDEFINED
        or PREINITIALIZED. Copying an image onto itself is not valid Vulkan
        usage, so `src` is another image. */
    method Copy(src: Image, buf: CommandBuffer)
      requires src != this && src.handle != handle
      modifies this, src, buf
      ensures buf.cmds == old(buf.cmds) + CopySteps(handle, old(layout), src.handle, old(src.layout))
      ensures layout == Restored(old(layout), TRANSFER_DST_OPTIMAL)
      ensures src.layout == Restored(old(src.layout), TRANSFER_SRC_OPTIMAL)
      ensures Trail(CopySteps(handle, old(layout), src.handle, old(src.layout)), handle, old(layout)) == Some(layout)
      ensures Trail(CopySteps(handle, old(layout), src.handle, old(src.layout)), src.handle, old(src.layout)) == Some(src.layout)
      ensures format == old(format) && width == old(width) && height == old(height)
      ensures uiDescSet == old(uiDescSet) && textures == old(textures)
    {
      var original := layout;
      SetLayout(buf, TRANSFER_DST_OPTIMAL);
      var srcOriginal := src.layout;
      src.SetLayout(buf, TRANSFER_SRC_OPTIMAL);
      buf.cmds := buf.cmds + [CopyImage(src.handle, src.layout, handle, layout)];
      if srcOriginal != UNDEFINED && srcOriginal != PREINITIALIZED {
        src.SetLayout(buf, srcOriginal);
      }
      if original != UNDEFINED && original != PREINITIALIZED {
        SetLayout(buf, original);
      }
      CopyStepsDst(handle, original, src.handle, srcOriginal);
      CopyStepsSrc(handle, original, src.handle, srcOriginal);
    }

    /** Buffer-to-image `copy`: the image goes to TRANSFER_DST for the copy
        and comes back, except from UNDEFINED or PREINITIALIZED. */
    method CopyFromBuffer(buf: CommandBuffer)
      modifies this, buf
      ensures buf.cmds == old(buf.cmds) + UploadSteps(handle, old(layout))
      ensures layout == Restored(old(layout), TRANSFER_DST_OPTIMAL)
      ensures Trail(UploadSteps(handle, old(layout)), handle, old(layout)) == Some(layout)
      ensures format == old(format) && width == old(width) && height == old(height)
      ensures uiDescSet == old(uiDescSet) && textures == old(textures)
    {
      var original := layout;
      SetLayout(buf, TRANSFER_DST_OPTIMAL);
      buf.cmds := buf.cmds + [CopyBufferToImage(handle, layout)];
      if original != UNDEFINED && original != PREINITIALIZED {
        SetLayout(buf, original);
      }
      UploadStepsTrail(handle, original);
    }

    /** `sample`: an unallocated image yields the default value and nothing
        changes; otherwise the location is clamped into the image, the
        texel there is read (through `texel`), and the image is left
        GENERAL. The source clamps to `[0, w - 1]`, which needs a non-empty
        image. */
    method Sample<T>(x: int, y: int, default: T, texel: (int, int) -> T) returns (v: T)
      requires isAllocated ==> width >= 1 && height >= 1
      modifies this
      ensures format == old(format) && width == old(width) && height == old(height)
      ensures isAllocated == old(isAllocated) && uiDescSet == old(uiDescSet) && textures == old(textures)
      ensures !isAllocated ==> v == default && layout == old(layout)
      ensures isAllocated ==> v == texel(Clamp(x, 0, width - 1), Clamp(y, 0, height - 1)) && layout == GENERAL
    {
      if !isAllocated {
        return default;
      }
      var cx := Clamp(x, 0, width - 1);
      var cy := Clamp(y, 0, height - 1);
      var immediate := new CommandBuffer();
      SetLayout(immediate, TRANSFER_SRC_OPTIMAL);
      v := texel(cx, cy);
      SetLayout(immediate, GENERAL);
    }

    /** `ui_desc_set`: registers the image as a UI texture on the first
        call only (`texture` is the handle the UI back end hands out, never
        null), and returns the same set from then on. */
    method UiDescSet(texture: int) returns (r: int)
      requires texture != 0
      modifies this
      ensures old(uiDescSet) != 0 ==> r == old(uiDescSet) && textures == old(textures)
      ensures old(uiDescSet) == 0 ==> r == texture && textures == old(textures) + [layout]
      ensures uiDescSet == r && r != 0
      ensures layout == old(layout) && isAllocated == old(isAllocated)
      ensures format == old(format) && width == old(width) && height == old(height)
    {
      if uiDescSet == 0 {
        uiDescSet := texture;
        textures := textures + [layout];
      }
      r := uiDescSet;
    }
  }
}
