// The swapchain's creation parameters (src/swapchain.cpp, `create`), chosen
// as the "Window System Integration" chapter of the Vulkan specification
// allows for VkSwapchainCreateInfoKHR: FIFO is the one present mode every
// surface supports. The surface's capabilities, its present modes, its
// queue support and the images the driver returns are inputs.
module Swapchains {
  import opened Wrappers

  const UINT32_MAX: int := 0xFFFF_FFFF

  // VkPresentModeKHR values.
  const PRESENT_MODE_IMMEDIATE: int := 0
  const PRESENT_MODE_MAILBOX: int := 1
  const PRESENT_MODE_FIFO: int := 2

  const TRANSFORM_IDENTITY: bv32 := 0x1

  // VkCompositeAlphaFlagBitsKHR values, in the order the source tries them.
  const ALPHA_OPAQUE: bv32 := 0x1
  const ALPHA_PRE_MULTIPLIED: bv32 := 0x2
  const ALPHA_POST_MULTIPLIED: bv32 := 0x4
  const ALPHA_INHERIT: bv32 := 0x8

  // VkImageUsageFlagBits values.
  const USAGE_TRANSFER_SRC: bv32 := 0x1
  const USAGE_TRANSFER_DST: bv32 := 0x2
  const USAGE_COLOR_ATTACHMENT: bv32 := 0x10

  datatype Extent = Extent(width: int, height: int)

  /** The fields of VkSurfaceCapabilitiesKHR the choice reads. */
  datatype SurfaceCaps = SurfaceCaps(
    currentExtent: Extent, minImageCount: int, maxImageCount: int,
    supportedTransforms: bv32, currentTransform: bv32,
    supportedCompositeAlpha: bv32, supportedUsageFlags: bv32)

  /** The fields of VkSwapchainCreateInfoKHR the source chooses. */
  datatype CreateInfo = CreateInfo(
    minImageCount: int, imageExtent: Extent, imageUsage: bv32,
    preTransform: bv32, presentMode: int, compositeAlpha: bv32)

  /** The extent: the requested one when the surface leaves it to the
      swapchain (current width 0xFFFFFFFF), else the surface's current
      extent, which also becomes the caller's width and height. */
  function ChooseExtent(caps: SurfaceCaps, requested: Extent): (r: Extent)
    ensures caps.currentExtent.width == UINT32_MAX ==> r == requested
    ensures caps.currentExtent.width != UINT32_MAX ==> r == caps.currentExtent
  {
    if caps.currentExtent.width == UINT32_MAX then requested else caps.currentExtent
  }

  /** The present mode, by preference: FIFO with vsync; without it,
      MAILBOX, then IMMEDIATE, then FIFO. */
  function ChoosePresentMode(modes: seq<int>, vsync: bool): int
  {
    if vsync then PRESENT_MODE_FIFO
    else if PRESENT_MODE_MAILBOX in modes then PRESENT_MODE_MAILBOX
    else if PRESENT_MODE_IMMEDIATE in modes then PRESENT_MODE_IMMEDIATE
    else PRESENT_MODE_FIFO
  }

  /** One more than the minimum image count, in 32-bit unsigned arithmetic,
      capped by a positive maximum. */
  function ChooseImageCount(caps: SurfaceCaps): (r: int)
    requires 0 <= caps.minImageCount <= UINT32_MAX && 0 <= caps.maxImageCount
    ensures caps.maxImageCount > 0 ==> r <= caps.maxImageCount
    ensures caps.minImageCount < UINT32_MAX ==> r <= caps.minImageCount + 1
    ensures caps.minImageCount < UINT32_MAX && (caps.maxImageCount == 0 || caps.minImageCount < caps.maxImageCount) ==>
              r == caps.minImageCount + 1
    ensures caps.minImageCount == UINT32_MAX ==> r == 0
  {
    var target := (caps.minImageCount + 1) % (UINT32_MAX + 1);
    if caps.maxImageCount > 0 && target > caps.maxImageCount then caps.maxImageCount else target
  }

  /** The identity transform when supported, else the current one. */
  function ChooseTransform(caps: SurfaceCaps): (r: bv32)
    ensures caps.supportedTransforms & TRANSFORM_IDENTITY != 0 ==> r == TRANSFORM_IDENTITY
    ensures caps.supportedTransforms & TRANSFORM_IDENTITY == 0 ==> r == caps.currentTransform
  {
    if caps.supportedTransforms & TRANSFORM_IDENTITY != 0 then TRANSFORM_IDENTITY else caps.currentTransform
  }

  /** Whether `flags` has any bit of `bit` set. */
  predicate Has(flags: bv32, bit: bv32)
  {
    flags & bit != 0
  }

  const AlphaOrder: seq<bv32> := [ALPHA_OPAQUE, ALPHA_PRE_MULTIPLIED, ALPHA_POST_MULTIPLIED, ALPHA_INHERIT]

  /** The position of the first flag in `order` that `supported` has, or
      |order|. */
  function FirstSupported(order: seq<bv32>, supported: bv32): (r: nat)
    ensures r <= |order|
    ensures r < |order| ==> Has(supported, order[r])
    ensures forall k :: 0 <= k < r ==> !Has(supported, order[k])
  {
    if order == [] then 0
    else if Has(supported, order[0]) then 0
    else 1 + FirstSupported(order[1..], supported)
  }

  lemma {:induction false} FirstSupportedIs(order: seq<bv32>, supported: bv32, i: nat)
    requires i <= |order|
    requires i < |order| ==> Has(supported, order[i])
    requires forall k :: 0 <= k < i ==> !Has(supported, order[k])
    ensures FirstSupported(order, supported) == i
  {
    if i > 0 {
      FirstSupportedIs(order[1..], supported, i - 1);
    }
  }

  /** The first supported composite alpha in `AlphaOrder`, OPAQUE if none
      is. */
  function ChooseAlpha(supported: bv32): (r: bv32)
    ensures r in AlphaOrder
    ensures r == ALPHA_OPAQUE || Has(supported, r)
  {
    var k := FirstSupported(AlphaOrder, supported);
    if k < |AlphaOrder| then AlphaOrder[k] else ALPHA_OPAQUE
  }

  /** Colour attachment, plus transfer source and destination where the
      surface supports them. */
  function ChooseUsage(caps: SurfaceCaps): (r: bv32)
    ensures r & USAGE_COLOR_ATTACHMENT != 0
    ensures r & USAGE_TRANSFER_SRC != 0 <==> caps.supportedUsageFlags & USAGE_TRANSFER_SRC != 0
    ensures r & USAGE_TRANSFER_DST != 0 <==> caps.supportedUsageFlags & USAGE_TRANSFER_DST != 0
  {
    USAGE_COLOR_ATTACHMENT |
    (if caps.supportedUsageFlags & USAGE_TRANSFER_SRC != 0 then USAGE_TRANSFER_SRC else 0) |
    (if caps.supportedUsageFlags & USAGE_TRANSFER_DST != 0 then USAGE_TRANSFER_DST else 0)
  }

  /** A present-mode preference the surface honours: the chosen mode is
      FIFO (always available) or one the surface listed, and vsync always
      gets FIFO. */
  lemma PresentModeAvailable(modes: seq<int>, vsync: bool)
    ensures ChoosePresentMode(modes, vsync) == PRESENT_MODE_FIFO || ChoosePresentMode(modes, vsync) in modes
    ensures vsync ==> ChoosePresentMode(modes, vsync) == PRESENT_MODE_FIFO
    ensures !vsync && PRESENT_MODE_MAILBOX in modes ==> ChoosePresentMode(modes, vsync) == PRESENT_MODE_MAILBOX
  {
  }

  /** A swapchain image: the driver's image and the view made for it. */
  datatype SwapImage = SwapImage(image: int, view: int)

  class Swapchain {
    var images: seq<SwapImage>
    var created: Option<CreateInfo>

    constructor ()
      ensures images == [] && created == None
    {
      images, created := [], None;
    }

    /** The present-mode loop: without vsync, MAILBOX wins and stops the
        search, IMMEDIATE is taken while MAILBOX has not been seen. */
    static method PresentModeFor(modes: seq<int>, vsync: bool) returns (mode: int)
      ensures mode == ChoosePresentMode(modes, vsync)
    {
      mode := PRESENT_MODE_FIFO;
      if !vsync {
        var i := 0;
        while i < |modes|
          invariant 0 <= i <= |modes|
          invariant PRESENT_MODE_MAILBOX !in modes[..i]
          invariant mode == (if PRESENT_MODE_IMMEDIATE in modes[..i] then PRESENT_MODE_IMMEDIATE else PRESENT_MODE_FIFO)
        {
          if modes[i] == PRESENT_MODE_MAILBOX {
            mode := PRESENT_MODE_MAILBOX;
            return;
          }
          if mode != PRESENT_MODE_MAILBOX && modes[i] == PRESENT_MODE_IMMEDIATE {
            mode := PRESENT_MODE_IMMEDIATE;
          }
          assert modes[..i + 1] == modes[..i] + [modes[i]];
          i := i + 1;
        }
        assert modes[..i] == modes;
      }
    }

    /** The alpha loop: the first flag in order that the surface supports. */
    static method AlphaFor(supported: bv32) returns (alpha: bv32)
      ensures alpha == ChooseAlpha(supported)
    {
      alpha := ALPHA_OPAQUE;
      var i := 0;
      while i < |AlphaOrder|
        invariant 0 <= i <= |AlphaOrder|
        invariant forall k :: 0 <= k < i ==> !Has(supported, AlphaOrder[k])
      {
        if Has(supported, AlphaOrder[i]) {
          alpha := AlphaOrder[i];
          FirstSupportedIs(AlphaOrder, supported, i);
          return;
        }
        i := i + 1;
      }
      FirstSupportedIs(AlphaOrder, supported, i);
    }

    /** `create`: the extent (and the caller's size), the create info, and
        one image per image the driver reports, in order. A queue that
        cannot present to the surface is an error. `views` are the image
        views created for the driver's images. */
    method Create(requested: Extent, vsync: bool, caps: SurfaceCaps, modes: seq<int>,
                  queueSupported: bool, driverImages: seq<int>, views: seq<int>)
      returns (r: Result<Extent>)
      requires 0 <= caps.minImageCount <= UINT32_MAX && 0 <= caps.maxImageCount
      requires |views| == |driverImages|
      modifies this
      ensures !queueSupported ==> r.Err? && images == old(images) && created == old(created)
      ensures queueSupported ==> r == Ok(ChooseExtent(caps, requested))
      ensures queueSupported ==> created == Some(CreateInfo(
                ChooseImageCount(caps), ChooseExtent(caps, requested), ChooseUsage(caps),
                ChooseTransform(caps), ChoosePresentMode(modes, vsync), ChooseAlpha(caps.supportedCompositeAlpha)))
      ensures queueSupported ==> |images| == |driverImages|
      ensures queueSupported ==> forall k :: 0 <= k < |images| ==> images[k] == SwapImage(driverImages[k], views[k])
    {
      var extent := if caps.currentExtent.width == UINT32_MAX then requested else caps.currentExtent;
      var mode := PresentModeFor(modes, vsync);
      var count := (caps.minImageCount + 1) % (UINT32_MAX + 1);
      if caps.maxImageCount > 0 && count > caps.maxImageCount {
        count := caps.maxImageCount;
      }
      var transform := if caps.supportedTransforms & TRANSFORM_IDENTITY != 0 then TRANSFORM_IDENTITY else caps.currentTransform;
      var alpha := AlphaFor(caps.supportedCompositeAlpha);
      if !queueSupported {
        return Err("Queue does not support surface.");
      }
      var usage := USAGE_COLOR_ATTACHMENT;
      if caps.supportedUsageFlags & USAGE_TRANSFER_SRC != 0 {
        usage := usage | USAGE_TRANSFER_SRC;
      }
      if caps.supportedUsageFlags & USAGE_TRANSFER_DST != 0 {
        usage := usage | USAGE_TRANSFER_DST;
      }
      assert usage == ChooseUsage(caps);
      created := Some(CreateInfo(count, extent, usage, transform, mode, alpha));
      var made: seq<SwapImage> := [];
      var i := 0;
      while i < |driverImages|
        invariant 0 <= i <= |driverImages| && |made| == i
        invariant forall k :: 0 <= k < i ==> made[k] == SwapImage(driverImages[k], views[k])
      {
        made := made + [SwapImage(driverImages[i], views[i])];
        i := i + 1;
      }
      images := made;
      return Ok(extent);
    }
  }
}
