/**
 * The swapchain configuration rules shared by engine/render/HRenderManager.cpp
 * and engine/render/HBaseGuiRenderer.cpp, the frame-index ring of the render
 * manager with its handling of acquire and present results, and the
 * image-view bookkeeping of the GUI renderer.  Surface capabilities, formats
 * and present modes are what Vulkan reports and are parameters; enumerator
 * and result values are those of the Vulkan headers.  The queue families are
 * chosen as in `GpuRsrc.SelectQueueFamilies`, whose loop is the same.
 */
module Swapchain {
  import opened Wrappers

  /** 2^32: the counts and extents are `uint32_t`. */
  const Uint32Modulus: int := 0x1_0000_0000

  const FormatB8G8R8A8Srgb: nat := 50
  const ColorSpaceSrgbNonlinear: nat := 0
  const PresentModeImmediate: nat := 0
  const PresentModeFifo: nat := 2

  /** `VkResult` values the frame loop tests. */
  const Success: int := 0
  const Suboptimal: int := 1000001003
  const ErrorOutOfDate: int := -1000001004

  datatype SurfaceFormat = SurfaceFormat(format: nat, colorSpace: nat)
  datatype Extent = Extent(width: nat, height: nat)
  datatype SurfaceCapabilities = SurfaceCapabilities(
    minImageCount: nat, maxImageCount: nat, minImageExtent: Extent, maxImageExtent: Extent)

  /** How the swapchain images are shared between the graphics and present queue families. */
  datatype SharingMode = Exclusive | Concurrent(queueFamilyIndices: seq<nat>)

  /** The fields of `VkSwapchainCreateInfoKHR` chosen by the rules. */
  datatype SwapchainCreateInfo = SwapchainCreateInfo(
    minImageCount: nat, surfaceFormat: SurfaceFormat, imageExtent: Extent, sharing: SharingMode, presentMode: nat)

  // ---------------------------------------------------------------------------
  // Selection rules
  // ---------------------------------------------------------------------------

  /** Whether a surface format is the one the engine wants. */
  predicate Wanted(f: SurfaceFormat) {
    f.format == FormatB8G8R8A8Srgb && f.colorSpace == ColorSpaceSrgbNonlinear
  }

  /** The index of the first wanted format, or the length when there is none. */
  function FirstWanted(formats: seq<SurfaceFormat>): (i: nat)
    ensures i <= |formats|
    ensures i < |formats| ==> Wanted(formats[i])
    ensures forall j :: 0 <= j < i ==> !Wanted(formats[j])
  {
    if formats == [] then 0
    else if Wanted(formats[0]) then 0
    else 1 + FirstWanted(formats[1..])
  }

  /** The format loop: the first wanted format; `found` is the asserted condition. */
  method ChooseSurfaceFormat(surfaceFormats: seq<SurfaceFormat>) returns (found: bool, surfaceFormat: SurfaceFormat)
    ensures found <==> exists f :: f in surfaceFormats && Wanted(f)
    ensures found ==> surfaceFormat == surfaceFormats[FirstWanted(surfaceFormats)]
  {
    found := false;
    surfaceFormat := SurfaceFormat(0, 0);
    for i := 0 to |surfaceFormats|
      invariant forall j :: 0 <= j < i ==> !Wanted(surfaceFormats[j])
    {
      if Wanted(surfaceFormats[i]) {
        found := true;
        surfaceFormat := surfaceFormats[i];
        FirstWantedIs(surfaceFormats, i);
        return;
      }
    }
  }

  /** The present-mode loop: FIFO when offered, else the zero-initialised mode (immediate); the caller asserts FIFO. */
  method ChoosePresentMode(surfacePresentModes: seq<nat>) returns (chosen: nat)
    ensures chosen == PresentModeFifo <==> PresentModeFifo in surfacePresentModes
    ensures chosen != PresentModeFifo ==> chosen == PresentModeImmediate
  {
    chosen := PresentModeImmediate;
    for i := 0 to |surfacePresentModes|
      invariant PresentModeFifo !in surfacePresentModes[..i]
    {
      if surfacePresentModes[i] == PresentModeFifo {
        chosen := PresentModeFifo;
        return;
      }
    }
    assert surfacePresentModes[..|surfacePresentModes|] == surfacePresentModes;
  }

  /** `static_cast<uint32_t>` of an `int`. */
  function ToUint32(v: int): (r: nat)
    ensures r < Uint32Modulus
    ensures 0 <= v < Uint32Modulus ==> r == v
  {
    v % Uint32Modulus
  }

  /** `std::clamp(v, lo, hi)`, which requires `lo <= hi`. */
  function Clamp(v: nat, lo: nat, hi: nat): (r: nat)
    requires lo <= hi
    ensures lo <= r <= hi
    ensures lo <= v <= hi ==> r == v
    ensures v < lo ==> r == lo
    ensures hi < v ==> r == hi
  {
    if v < lo then lo else if hi < v then hi else v
  }

  /** The image extent: each framebuffer dimension clamped to the surface's range. */
  function ImageExtent(frameBufferWidth: int, frameBufferHeight: int, caps: SurfaceCapabilities): (e: Extent)
    requires caps.minImageExtent.width <= caps.maxImageExtent.width
    requires caps.minImageExtent.height <= caps.maxImageExtent.height
    ensures caps.minImageExtent.width <= e.width <= caps.maxImageExtent.width
    ensures caps.minImageExtent.height <= e.height <= caps.maxImageExtent.height
    ensures 0 <= frameBufferWidth < Uint32Modulus ==>
      e.width == if frameBufferWidth < caps.minImageExtent.width then caps.minImageExtent.width
                 else if caps.maxImageExtent.width < frameBufferWidth then caps.maxImageExtent.width
                 else frameBufferWidth
    ensures 0 <= frameBufferHeight < Uint32Modulus ==>
      e.height == if frameBufferHeight < caps.minImageExtent.height then caps.minImageExtent.height
                  else if caps.maxImageExtent.height < frameBufferHeight then caps.maxImageExtent.height
                  else frameBufferHeight
  {
    Extent(Clamp(ToUint32(frameBufferWidth), caps.minImageExtent.width, caps.maxImageExtent.width),
           Clamp(ToUint32(frameBufferHeight), caps.minImageExtent.height, caps.maxImageExtent.height))
  }

  /** The image count: one more than the minimum, lowered to a positive maximum; the `uint32_t` sum wraps. */
  function ImageCount(caps: SurfaceCapabilities): (n: nat)
    requires caps.minImageCount < Uint32Modulus
    ensures caps.maxImageCount > 0 ==> n <= caps.maxImageCount
    ensures caps.minImageCount + 1 < Uint32Modulus && (caps.maxImageCount == 0 || caps.minImageCount < caps.maxImageCount)
            ==> n == caps.minImageCount + 1
    ensures caps.maxImageCount > 0 && caps.minImageCount + 1 > caps.maxImageCount && caps.minImageCount + 1 < Uint32Modulus
            ==> n == caps.maxImageCount
  {
    var imageCount := (caps.minImageCount + 1) % Uint32Modulus;
    if caps.maxImageCount > 0 && imageCount > caps.maxImageCount then caps.maxImageCount else imageCount
  }

  /** Concurrent sharing over both families when they differ, exclusive when they are one. */
  function Sharing(graphicsQueueFamilyIdx: nat, presentQueueFamilyIdx: nat): (s: SharingMode)
    ensures s.Concurrent? <==> graphicsQueueFamilyIdx != presentQueueFamilyIdx
    ensures s.Concurrent? ==> s.queueFamilyIndices == [graphicsQueueFamilyIdx, presentQueueFamilyIdx]
  {
    if graphicsQueueFamilyIdx != presentQueueFamilyIdx then Concurrent([graphicsQueueFamilyIdx, presentQueueFamilyIdx])
    else Exclusive
  }

  /**
   * `CreateSwapchain`: `None` when one of its asserts fails (no wanted
   * format, or no FIFO mode), otherwise the create-info the rules choose.
   */
  method CreateSwapchain(surfaceFormats: seq<SurfaceFormat>, surfacePresentModes: seq<nat>, caps: SurfaceCapabilities,
                         frameBufferWidth: int, frameBufferHeight: int, graphicsQueueFamilyIdx: nat, presentQueueFamilyIdx: nat)
    returns (info: Option<SwapchainCreateInfo>)
    requires caps.minImageExtent.width <= caps.maxImageExtent.width
    requires caps.minImageExtent.height <= caps.maxImageExtent.height
    requires caps.minImageCount < Uint32Modulus
    ensures info.Some? <==> PresentModeFifo in surfacePresentModes && exists f :: f in surfaceFormats && Wanted(f)
    ensures info.Some? ==> info.value == SwapchainCreateInfo(
      ImageCount(caps), surfaceFormats[FirstWanted(surfaceFormats)], ImageExtent(frameBufferWidth, frameBufferHeight, caps),
      Sharing(graphicsQueueFamilyIdx, presentQueueFamilyIdx), PresentModeFifo)
  {
    var presentMode := ChoosePresentMode(surfacePresentModes);
    if presentMode != PresentModeFifo {
      return None;
    }
    var foundFormat, surfaceFormat := ChooseSurfaceFormat(surfaceFormats);
    if !foundFormat {
      return None;
    }
    var extent := ImageExtent(frameBufferWidth, frameBufferHeight, caps);
    var imageCount := ImageCount(caps);
    info := Some(SwapchainCreateInfo(imageCount, surfaceFormat, extent,
                                     Sharing(graphicsQueueFamilyIdx, presentQueueFamilyIdx), presentMode));
  }

  // ---------------------------------------------------------------------------
  // The frame loop
  // ---------------------------------------------------------------------------

  /** What the frame loop does after an acquire or a present. */
  datatype FrameOutcome = Continue | Recreate | Fail

  /** `HRenderManager`'s frame state: the current frame index, the swapchain image count and the resize flag. */
  class FrameRing {
    var curSwapchainFrameIdx: nat
    var swapchainImgCnt: nat
    var frameBufferResize: bool

    /** The frame index stays below the image count. */
    predicate Valid()
      reads this
    {
      0 < swapchainImgCnt && curSwapchainFrameIdx < swapchainImgCnt
    }

    /** The constructor starts at frame 0. */
    constructor(imgCnt: nat)
      requires imgCnt > 0
      ensures Valid() && curSwapchainFrameIdx == 0 && swapchainImgCnt == imgCnt && !frameBufferResize
    {
      curSwapchainFrameIdx, swapchainImgCnt, frameBufferResize := 0, imgCnt, false;
    }

    /**
     * `HandleResize`: an out-of-date swapchain is recreated (with the image
     * count Vulkan then reports); success and suboptimal carry on; any
     * other result throws.
     */
    method HandleResize(result: int, recreatedImgCnt: nat) returns (outcome: FrameOutcome)
      requires Valid() && recreatedImgCnt > 0
      modifies this
      ensures outcome == AcquireOutcome(result)
      ensures swapchainImgCnt == if outcome == Recreate then recreatedImgCnt else old(swapchainImgCnt)
      ensures curSwapchainFrameIdx == old(curSwapchainFrameIdx) && frameBufferResize == old(frameBufferResize)
      ensures outcome != Recreate || recreatedImgCnt > old(curSwapchainFrameIdx) ==> Valid()
    {
      if result == ErrorOutOfDate {
        swapchainImgCnt := recreatedImgCnt;
        return Recreate;
      } else if result != Success && result != Suboptimal {
        return Fail;
      }
      return Continue;
    }

    /**
     * The end of `Render`: out-of-date, suboptimal or a pending resize
     * clears the flag and recreates the swapchain; any other failure
     * throws before the index moves; otherwise, and after a recreation,
     * the frame index advances modulo the image count.
     */
    method Present(result: int, recreatedImgCnt: nat) returns (outcome: FrameOutcome)
      requires Valid() && recreatedImgCnt > 0
      modifies this
      ensures outcome == PresentOutcome(result, old(frameBufferResize))
      ensures outcome == Recreate ==> !frameBufferResize && swapchainImgCnt == recreatedImgCnt
      ensures outcome != Recreate ==> frameBufferResize == old(frameBufferResize) && swapchainImgCnt == old(swapchainImgCnt)
      ensures outcome == Fail ==> curSwapchainFrameIdx == old(curSwapchainFrameIdx)
      ensures outcome != Fail ==> curSwapchainFrameIdx == (old(curSwapchainFrameIdx) + 1) % swapchainImgCnt
      ensures Valid()
    {
      if result == ErrorOutOfDate || result == Suboptimal || frameBufferResize {
        frameBufferResize := false;
        swapchainImgCnt := recreatedImgCnt;
        outcome := Recreate;
      } else if result != Success {
        return Fail;
      } else {
        outcome := Continue;
      }
      curSwapchainFrameIdx := (curSwapchainFrameIdx + 1) % swapchainImgCnt;
    }
  }

  /** The acquire result rule. */
  function AcquireOutcome(result: int): (o: FrameOutcome)
    ensures o == Recreate <==> result == ErrorOutOfDate
    ensures o == Continue <==> result == Success || result == Suboptimal
  {
    if result == ErrorOutOfDate then Recreate
    else if result != Success && result != Suboptimal then Fail
    else Continue
  }

  /** The present result rule. */
  function PresentOutcome(result: int, frameBufferResize: bool): (o: FrameOutcome)
    ensures o == Recreate <==> result == ErrorOutOfDate || result == Suboptimal || frameBufferResize
    ensures o == Continue <==> result == Success && !frameBufferResize
  {
    if result == ErrorOutOfDate || result == Suboptimal || frameBufferResize then Recreate
    else if result != Success then Fail
    else Continue
  }

  /** The frame index after `k` successful presents from `idx`, with no recreation. */
  function AfterPresents(idx: nat, imgCnt: nat, k: nat): (r: nat)
    requires idx < imgCnt
    ensures r < imgCnt
  {
    if k == 0 then idx else (AfterPresents(idx, imgCnt, k - 1) + 1) % imgCnt
  }

  // ---------------------------------------------------------------------------
  // Image views of the GUI renderer
  // ---------------------------------------------------------------------------

  /** `HBaseGuiRenderer`'s swapchain image views and their count. */
  class SwapchainViews {
    var swapchainImgViews: seq<nat>
    var swapchainImgViewsCnt: nat

    constructor()
      ensures swapchainImgViews == [] && swapchainImgViewsCnt == 0
    {
      swapchainImgViews, swapchainImgViewsCnt := [], 0;
    }

    /** `CreateSwapchainImageViews`: one view per swapchain image, in image order; the count is the image count. */
    method CreateSwapchainImageViews(swapchainImages: seq<nat>, createView: nat -> nat)
      modifies this
      ensures swapchainImgViewsCnt == |swapchainImages| == |swapchainImgViews|
      ensures forall i :: 0 <= i < |swapchainImages| ==> swapchainImgViews[i] == createView(swapchainImages[i])
    {
      var views := [];
      for i := 0 to |swapchainImages|
        invariant |views| == i
        invariant forall j :: 0 <= j < i ==> views[j] == createView(swapchainImages[j])
      {
        views := views + [createView(swapchainImages[i])];
      }
      swapchainImgViews := views;
      swapchainImgViewsCnt := |swapchainImages|;
    }

    /** `CleanupSwapchain`: the views destroyed, one per counted view, in order. */
    method CleanupSwapchain() returns (destroyed: seq<nat>)
      requires swapchainImgViewsCnt <= |swapchainImgViews|
      ensures destroyed == swapchainImgViews[..swapchainImgViewsCnt]
    {
      destroyed := [];
      for i := 0 to swapchainImgViewsCnt
        invariant destroyed == swapchainImgViews[..i]
      {
        destroyed := destroyed + [swapchainImgViews[i]];
      }
    }
  }

  // ---------------------------------------------------------------------------
  // Properties
  // ---------------------------------------------------------------------------

  lemma {:induction false} FirstWantedIs(formats: seq<SurfaceFormat>, i: nat)
    requires i < |formats| && Wanted(formats[i])
    requires forall j :: 0 <= j < i ==> !Wanted(formats[j])
    ensures FirstWanted(formats) == i
    decreases i
  {
    if i > 0 {
      FirstWantedIs(formats[1..], i - 1);
    }
  }

  /** A wanted format exists exactly when the first-wanted index is in range. */
  lemma {:induction false} FirstWantedInRange(formats: seq<SurfaceFormat>)
    ensures FirstWanted(formats) < |formats| <==> exists f :: f in formats && Wanted(f)
  {
    if FirstWanted(formats) < |formats| {
      assert formats[FirstWanted(formats)] in formats;
    } else {
      forall f | f in formats ensures !Wanted(f) {
        var k :| 0 <= k < |formats| && formats[k] == f;
      }
    }
  }

  /** One step of the ring: the next index, wrapping to 0 after the last. */
  lemma NextIndex(i: nat, n: nat)
    requires i < n
    ensures (i + 1) % n == if i + 1 == n then 0 else i + 1
  {
  }

  /** From frame 0 the first presents use frames 0, 1, 2, ... in turn. */
  lemma {:induction false} FramesCountUp(imgCnt: nat, k: nat)
    requires k < imgCnt
    ensures AfterPresents(0, imgCnt, k) == k
  {
    if k > 0 {
      FramesCountUp(imgCnt, k - 1);
      NextIndex(k - 1, imgCnt);
    }
  }

  /** Presenting `j` then `k` times is presenting `j + k` times. */
  lemma {:induction false} PresentsCompose(idx: nat, imgCnt: nat, j: nat, k: nat)
    requires idx < imgCnt
    ensures AfterPresents(idx, imgCnt, j + k) == AfterPresents(AfterPresents(idx, imgCnt, j), imgCnt, k)
  {
    if k > 0 {
      var m := AfterPresents(idx, imgCnt, j);
      var before := AfterPresents(idx, imgCnt, j + (k - 1));
      PresentsCompose(idx, imgCnt, j, k - 1);
      assert before == AfterPresents(m, imgCnt, k - 1);
      assert AfterPresents(idx, imgCnt, j + k) == (before + 1) % imgCnt;
      assert AfterPresents(m, imgCnt, k) == (AfterPresents(m, imgCnt, k - 1) + 1) % imgCnt;
    }
  }

  /** After as many presents as there are images the ring is back at frame 0, and it then repeats: the frames are used round-robin. */
  lemma RingReturns(imgCnt: nat, k: nat)
    requires imgCnt > 0
    ensures AfterPresents(0, imgCnt, imgCnt) == 0
    ensures AfterPresents(0, imgCnt, imgCnt + k) == AfterPresents(0, imgCnt, k)
  {
    FramesCountUp(imgCnt, imgCnt - 1);
    NextIndex(imgCnt - 1, imgCnt);
    PresentsCompose(0, imgCnt, imgCnt, k);
  }

  /** A surface with one more allowed image than its minimum gets exactly that many; a surface whose minimum is its maximum gets the maximum. */
  lemma ImageCountWithinBounds(caps: SurfaceCapabilities)
    requires 0 < caps.minImageCount < Uint32Modulus - 1
    requires caps.maxImageCount == 0 || caps.minImageCount <= caps.maxImageCount
    ensures caps.minImageCount <= ImageCount(caps)
    ensures caps.maxImageCount > 0 ==> ImageCount(caps) <= caps.maxImageCount
  {
  }

  /** The `uint32_t` wrap: a minimum of 2^32 - 1 with no maximum yields a count of 0. */
  lemma ImageCountWraps(caps: SurfaceCapabilities)
    requires caps.minImageCount == Uint32Modulus - 1 && caps.maxImageCount == 0
    ensures ImageCount(caps) == 0
  {
  }

  /** A negative framebuffer size becomes a huge `uint32_t`, clamped to the maximum extent. */
  lemma NegativeSizeClampsToMax(frameBufferWidth: int, caps: SurfaceCapabilities)
    requires -Uint32Modulus < frameBufferWidth < 0
    requires caps.minImageExtent.width <= caps.maxImageExtent.width < Uint32Modulus + frameBufferWidth
    requires caps.minImageExtent.height <= caps.maxImageExtent.height
    ensures ImageExtent(frameBufferWidth, 0, caps).width == caps.maxImageExtent.width
  {
  }
}
