/**
 * The bookkeeping of engine/core/HGpuRsrcManager.cpp: the reference-counted
 * registry of GPU buffers and images, the layout an image is known to be in,
 * and the choice of queue families.  The Vulkan and VMA calls themselves
 * are not modelled; enumerator values are those of the Vulkan headers.
 */
module GpuRsrc {
  import opened Wrappers

  /** 2^32: the reference count is a `uint32_t`. */
  const Uint32Modulus: nat := 0x1_0000_0000

  /** `VkImageLayout` values used here. */
  type ImageLayout = nat
  const LayoutUndefined: ImageLayout := 0

  /** `VkBufferUsageFlagBits` and `VkDescriptorType` values used here. */
  const UsageUniformBufferBit: nat := 0x10
  const UsageStorageBufferBit: nat := 0x20
  const DescriptorZero: nat := 0
  const DescriptorUniformBuffer: nat := 6
  const DescriptorStorageBuffer: nat := 7

  /** What a registry entry holds: a buffer or an image. */
  datatype RsrcKind = GpuBufferKind | GpuImgKind

  /** The tuple stored per resource: reference count, debug message, kind. */
  datatype RsrcEntry = RsrcEntry(refCount: nat, dbgMsg: string, kind: RsrcKind)

  /** `HGpuBuffer`: the fields the manager sets. */
  class HGpuBuffer {
    var byteCnt: nat
    var descriptorType: nat
    var descriptorOffset: nat
    var descriptorRange: nat

    /** `new HGpuBuffer()` followed by `memset(..., 0, ...)`. */
    constructor()
      ensures byteCnt == 0 && descriptorType == DescriptorZero && descriptorOffset == 0 && descriptorRange == 0
    {
      byteCnt, descriptorType, descriptorOffset, descriptorRange := 0, DescriptorZero, 0, 0;
    }
  }

  /** `HGpuImg`: the tracked layout. */
  class HGpuImg {
    var curImgLayout: ImageLayout

    /** `new HGpuImg()` followed by `memset(..., 0, ...)`. */
    constructor()
      ensures curImgLayout == LayoutUndefined
    {
      curImgLayout := LayoutUndefined;
    }
  }

  /** The descriptor type a buffer gets for its usage flags: only an exact uniform or storage usage is recognised. */
  function DescriptorTypeOf(usage: nat): (t: nat)
    ensures t == DescriptorUniformBuffer <==> usage == UsageUniformBufferBit
    ensures t == DescriptorStorageBuffer <==> usage == UsageStorageBufferBit
    ensures t == DescriptorZero <==> usage != UsageUniformBufferBit && usage != UsageStorageBufferBit
  {
    if usage == UsageUniformBufferBit then DescriptorUniformBuffer
    else if usage == UsageStorageBufferBit then DescriptorStorageBuffer
    else DescriptorZero
  }

  /** The registry's invariant: every registered resource holds at least one reference. */
  predicate CountsPositive(m: map<object, RsrcEntry>) {
    forall p :: p in m ==> 1 <= m[p].refCount < Uint32Modulus
  }

  /** The registry after `ReferGpuBufferImg(p)`: one more reference to a registered resource; nothing for an unregistered one. */
  function AfterRefer(m: map<object, RsrcEntry>, p: object): (r: map<object, RsrcEntry>)
    ensures r.Keys == m.Keys
    ensures forall q :: q in m && q != p ==> r[q] == m[q]
    ensures p in m ==> r[p] == m[p].(refCount := (m[p].refCount + 1) % Uint32Modulus)
  {
    if p in m then m[p := m[p].(refCount := (m[p].refCount + 1) % Uint32Modulus)] else m
  }

  /** The registry after `DereferGpuBuffer`/`DereferGpuImg(p)`: one reference fewer, destroyed at 0; nothing for an unregistered one. */
  function AfterDerefer(m: map<object, RsrcEntry>, p: object): (r: map<object, RsrcEntry>)
    ensures p !in m ==> r == m
    ensures r.Keys - {p} == m.Keys - {p}
    ensures forall q :: q in m && q != p ==> q in r && r[q] == m[q]
    ensures p in m && 1 < m[p].refCount < Uint32Modulus ==> p in r && r[p] == m[p].(refCount := m[p].refCount - 1)
    ensures p in m && m[p].refCount == 1 ==> p !in r
  {
    if p !in m then m
    else
      var count := (m[p].refCount + Uint32Modulus - 1) % Uint32Modulus;
      if count == 0 then m - {p} else m[p := m[p].(refCount := count)]
  }

  /** A layout transition as the barrier records it. */
  datatype Barrier = Barrier(oldLayout: ImageLayout, newLayout: ImageLayout)

  /** What a queue family offers: the graphics and compute flags, and present support for the surface. */
  datatype QueueFamily = QueueFamily(graphics: bool, compute: bool, present: bool)

  /** `HGpuRsrcManager`: the registry `m_gpuBuffersImgs` and the three queue family indices. */
  class HGpuRsrcManager {
    var gpuBuffersImgs: map<object, RsrcEntry>

    constructor()
      ensures gpuBuffersImgs == map[]
    {
      gpuBuffersImgs := map[];
    }

    /**
     * `CreateGpuBuffer`: a new buffer of `bytesNum` bytes, described from
     * offset 0 over `bytesNum` bytes, with the descriptor type of its usage,
     * registered with one reference.
     */
    method CreateGpuBuffer(usage: nat, bytesNum: nat, dbgMsg: string) returns (pGpuBuffer: HGpuBuffer)
      modifies this
      ensures fresh(pGpuBuffer)
      ensures pGpuBuffer.byteCnt == bytesNum && pGpuBuffer.descriptorOffset == 0 && pGpuBuffer.descriptorRange == bytesNum
      ensures pGpuBuffer.descriptorType == DescriptorTypeOf(usage)
      ensures gpuBuffersImgs == old(gpuBuffersImgs)[pGpuBuffer := RsrcEntry(1, dbgMsg, GpuBufferKind)]
    {
      pGpuBuffer := new HGpuBuffer();
      pGpuBuffer.byteCnt := bytesNum;
      if usage == UsageUniformBufferBit {
        pGpuBuffer.descriptorType := DescriptorUniformBuffer;
      } else if usage == UsageStorageBufferBit {
        pGpuBuffer.descriptorType := DescriptorStorageBuffer;
      }
      pGpuBuffer.descriptorOffset := 0;
      pGpuBuffer.descriptorRange := bytesNum;
      gpuBuffersImgs := gpuBuffersImgs[pGpuBuffer := RsrcEntry(1, dbgMsg, GpuBufferKind)];
    }

    /** `CreateGpuImage`: a new image in the undefined layout, registered with one reference. */
    method CreateGpuImage(dbgMsg: string) returns (pGpuImg: HGpuImg)
      modifies this
      ensures fresh(pGpuImg)
      ensures pGpuImg.curImgLayout == LayoutUndefined
      ensures gpuBuffersImgs == old(gpuBuffersImgs)[pGpuImg := RsrcEntry(1, dbgMsg, GpuImgKind)]
    {
      pGpuImg := new HGpuImg();
      pGpuImg.curImgLayout := LayoutUndefined;
      gpuBuffersImgs := gpuBuffersImgs[pGpuImg := RsrcEntry(1, dbgMsg, GpuImgKind)];
    }

    /** `ReferGpuBufferImg`: the `assert(1, ...)` on an unregistered resource never fires, so that case changes nothing. */
    method ReferGpuBufferImg(pGpuBufferImg: object)
      modifies this
      ensures gpuBuffersImgs == AfterRefer(old(gpuBuffersImgs), pGpuBufferImg)
    {
      if pGpuBufferImg in gpuBuffersImgs {
        var dbgRefCnt := (gpuBuffersImgs[pGpuBufferImg].refCount + 1) % Uint32Modulus;
        gpuBuffersImgs := gpuBuffersImgs[pGpuBufferImg := gpuBuffersImgs[pGpuBufferImg].(refCount := dbgRefCnt)];
      }
    }

    /** `DereferGpuBuffer`: drops a reference and destroys the buffer when none is left. */
    method DereferGpuBuffer(pGpuBuffer: HGpuBuffer)
      modifies this
      ensures gpuBuffersImgs == AfterDerefer(old(gpuBuffersImgs), pGpuBuffer)
    {
      if pGpuBuffer in gpuBuffersImgs {
        var count := (gpuBuffersImgs[pGpuBuffer].refCount + Uint32Modulus - 1) % Uint32Modulus;
        gpuBuffersImgs := gpuBuffersImgs[pGpuBuffer := gpuBuffersImgs[pGpuBuffer].(refCount := count)];
        if gpuBuffersImgs[pGpuBuffer].refCount == 0 {
          DestroyGpuBufferResource(pGpuBuffer);
        }
      }
    }

    /** `DereferGpuImg`: drops a reference and destroys the image when none is left. */
    method DereferGpuImg(pGpuImg: HGpuImg)
      modifies this
      ensures gpuBuffersImgs == AfterDerefer(old(gpuBuffersImgs), pGpuImg)
    {
      if pGpuImg in gpuBuffersImgs {
        var count := (gpuBuffersImgs[pGpuImg].refCount + Uint32Modulus - 1) % Uint32Modulus;
        gpuBuffersImgs := gpuBuffersImgs[pGpuImg := gpuBuffersImgs[pGpuImg].(refCount := count)];
        if gpuBuffersImgs[pGpuImg].refCount == 0 {
          DestroyGpuImgResource(pGpuImg);
        }
      }
    }

    /** `DestroyGpuBufferResource`: unregisters a registered buffer; null and unregistered buffers are ignored. */
    method DestroyGpuBufferResource(pGpuBuffer: HGpuBuffer?)
      modifies this
      ensures pGpuBuffer == null ==> gpuBuffersImgs == old(gpuBuffersImgs)
      ensures pGpuBuffer != null ==> gpuBuffersImgs == old(gpuBuffersImgs) - {pGpuBuffer}
    {
      if pGpuBuffer != null {
        if pGpuBuffer in gpuBuffersImgs {
          gpuBuffersImgs := gpuBuffersImgs - {pGpuBuffer};
        }
      }
    }

    /** `DestroyGpuImgResource`: unregisters a registered image; null and unregistered images are ignored. */
    method DestroyGpuImgResource(pGpuImg: HGpuImg?)
      modifies this
      ensures pGpuImg == null ==> gpuBuffersImgs == old(gpuBuffersImgs)
      ensures pGpuImg != null ==> gpuBuffersImgs == old(gpuBuffersImgs) - {pGpuImg}
    {
      if pGpuImg != null {
        if pGpuImg in gpuBuffersImgs {
          gpuBuffersImgs := gpuBuffersImgs - {pGpuImg};
        }
      }
    }

    /**
     * `TransImageLayout`: nothing when the image is already in the target
     * layout; otherwise a barrier from the tracked layout to the target is
     * submitted and the target becomes the tracked layout.
     */
    method TransImageLayout(pTargetImg: HGpuImg, targetLayout: ImageLayout) returns (barrier: seq<Barrier>)
      modifies pTargetImg
      ensures pTargetImg.curImgLayout == targetLayout
      ensures barrier == if old(pTargetImg.curImgLayout) == targetLayout then [] else [Barrier(old(pTargetImg.curImgLayout), targetLayout)]
    {
      if targetLayout == pTargetImg.curImgLayout {
        return [];
      }
      barrier := [Barrier(pTargetImg.curImgLayout, targetLayout)];
      pTargetImg.curImgLayout := targetLayout;
    }
  }

  // ---------------------------------------------------------------------------
  // Queue-family selection
  // ---------------------------------------------------------------------------

  /** The last of the first `n` families with the capability, if any. */
  function LastWith(fams: seq<QueueFamily>, n: nat, has: QueueFamily -> bool): (r: Option<nat>)
    requires n <= |fams|
    ensures r.Some? ==> r.value < n && has(fams[r.value]) && forall j :: r.value < j < n ==> !has(fams[j])
    ensures r.None? ==> forall j :: 0 <= j < n ==> !has(fams[j])
  {
    if n == 0 then None
    else if has(fams[n - 1]) then Some(n - 1)
    else LastWith(fams, n - 1, has)
  }

  function IsGraphics(f: QueueFamily): bool { f.graphics }
  function IsPresent(f: QueueFamily): bool { f.present }
  function IsCompute(f: QueueFamily): bool { f.compute }

  /** Whether the first `n` families include graphics, present and compute support. */
  predicate FoundAll(fams: seq<QueueFamily>, n: nat)
    requires n <= |fams|
  {
    LastWith(fams, n, IsGraphics).Some? && LastWith(fams, n, IsPresent).Some? && LastWith(fams, n, IsCompute).Some?
  }

  /** How many families the loop examines: up to the first by which all three are found, else all. */
  function Examined(fams: seq<QueueFamily>, from: nat): (n: nat)
    requires from <= |fams|
    ensures from <= n <= |fams|
    decreases |fams| - from
  {
    if from == |fams| then |fams|
    else if FoundAll(fams, from + 1) then from + 1
    else Examined(fams, from + 1)
  }

  /**
   * The selection loop: each index records the last family seen with each
   * capability; the loop stops as soon as all three have been seen.  `ok`
   * is the asserted condition.
   */
  method SelectQueueFamilies(fams: seq<QueueFamily>) returns (ok: bool, gfx: nat, present: nat, compute: nat)
    ensures var n := Examined(fams, 0);
      (ok <==> FoundAll(fams, n)) &&
      (ok ==> Some(gfx) == LastWith(fams, n, IsGraphics) && Some(present) == LastWith(fams, n, IsPresent) &&
              Some(compute) == LastWith(fams, n, IsCompute))
  {
    var foundGraphics, foundPresent, foundCompute := false, false, false;
    gfx, present, compute := 0, 0, 0;
    var i := 0;
    while i < |fams|
      invariant i <= |fams| && Examined(fams, i) == Examined(fams, 0)
      invariant Tracks(fams, i, IsGraphics, foundGraphics, gfx)
      invariant Tracks(fams, i, IsPresent, foundPresent, present)
      invariant Tracks(fams, i, IsCompute, foundCompute, compute)
    {
      TrackStep(fams, i, IsGraphics, foundGraphics, gfx);
      TrackStep(fams, i, IsPresent, foundPresent, present);
      TrackStep(fams, i, IsCompute, foundCompute, compute);
      if fams[i].graphics {
        gfx := i;
        foundGraphics := true;
      }
      if fams[i].present {
        present := i;
        foundPresent := true;
      }
      if fams[i].compute {
        compute := i;
        foundCompute := true;
      }
      if foundGraphics && foundPresent && foundCompute {
        assert FoundAll(fams, i + 1);
        break;
      }
      i := i + 1;
    }
    ok := foundGraphics && foundPresent && foundCompute;
  }

  /** The loop's record of one capability after `i` families: whether it was seen, and the last index that had it. */
  predicate Tracks(fams: seq<QueueFamily>, i: nat, has: QueueFamily -> bool, found: bool, idx: nat)
    requires i <= |fams|
  {
    (found <==> LastWith(fams, i, has).Some?) && (found ==> Some(idx) == LastWith(fams, i, has))
  }

  /** One iteration of the selection loop for one capability. */
  lemma TrackStep(fams: seq<QueueFamily>, i: nat, has: QueueFamily -> bool, found: bool, idx: nat)
    requires i < |fams| && Tracks(fams, i, has, found, idx)
    ensures Tracks(fams, i + 1, has, found || has(fams[i]), if has(fams[i]) then i else idx)
  {
  }

  /** Whether a sequence is strictly ascending, as a `std::set` iterates. */
  predicate Ascending(s: seq<nat>) {
    forall i, j :: 0 <= i < j < |s| ==> s[i] < s[j]
  }

  /** `std::set::insert` on the ascending listing of a set. */
  function Insert(x: nat, s: seq<nat>): (r: seq<nat>)
    requires Ascending(s)
    ensures Ascending(r)
    ensures forall q :: q in r <==> q == x || q in s
    ensures |r| == if x in s then |s| else |s| + 1
  {
    if s == [] then [x]
    else if x < s[0] then [x] + s
    else if x == s[0] then s
    else
      var rest := Insert(x, s[1..]);
      assert forall q :: q in s <==> q == s[0] || q in s[1..];
      assert forall j :: 0 <= j < |rest| ==> s[0] < rest[j] by {
        forall j | 0 <= j < |rest| ensures s[0] < rest[j] {
          assert rest[j] in rest;
          if rest[j] != x {
            var k :| 0 <= k < |s[1..]| && s[1..][k] == rest[j];
            assert s[k + 1] == rest[j];
          }
        }
      }
      [s[0]] + rest
  }

  /** The queue create-infos: one per distinct family index, ascending, as the `std::set` of the three indices lists them. */
  function UniqueQueueFamilies(gfx: nat, present: nat, compute: nat): (infos: seq<nat>)
    ensures Ascending(infos)
    ensures forall q :: q in infos <==> q == gfx || q == present || q == compute
  {
    Insert(compute, Insert(present, [gfx]))
  }

  // ---------------------------------------------------------------------------
  // Properties
  // ---------------------------------------------------------------------------

  /** Creating, referring and dereferring keep every count positive, below the `uint32_t` wrap-around. */
  lemma ReferKeepsCountsPositive(m: map<object, RsrcEntry>, p: object)
    requires CountsPositive(m)
    requires p in m ==> m[p].refCount < Uint32Modulus - 1
    ensures CountsPositive(AfterRefer(m, p))
  {
  }

  lemma DereferKeepsCountsPositive(m: map<object, RsrcEntry>, p: object)
    requires CountsPositive(m)
    ensures CountsPositive(AfterDerefer(m, p))
  {
  }

  /** A reference taken and given back restores the registry. */
  lemma ReferThenDereferRestores(m: map<object, RsrcEntry>, p: object)
    requires CountsPositive(m)
    requires p in m ==> m[p].refCount < Uint32Modulus - 1
    ensures AfterDerefer(AfterRefer(m, p), p) == m
  {
    var r := AfterDerefer(AfterRefer(m, p), p);
    if p in m {
      assert r[p] == m[p];
    }
    assert r.Keys == m.Keys;
  }

  /** A freshly created resource is destroyed by its one dereference. */
  lemma CreatedThenDereferred(m: map<object, RsrcEntry>, p: object, e: RsrcEntry)
    requires p !in m && e.refCount == 1
    ensures AfterDerefer(m[p := e], p) == m
  {
    assert (m[p := e] - {p}).Keys == m.Keys;
  }

  /** A family with all three capabilities first in the list is chosen for all three, after one step. */
  lemma FirstUniversalFamily(fams: seq<QueueFamily>)
    requires |fams| > 0 && fams[0].graphics && fams[0].present && fams[0].compute
    ensures Examined(fams, 0) == 1
    ensures LastWith(fams, 1, IsGraphics) == Some(0) && LastWith(fams, 1, IsPresent) == Some(0) && LastWith(fams, 1, IsCompute) == Some(0)
  {
    assert FoundAll(fams, 1);
  }

  /**
   * The loop examines exactly the shortest prefix in which all three
   * capabilities are found, and finds them all exactly when the whole list
   * offers them.
   */
  lemma {:induction false} ExaminedIsShortest(fams: seq<QueueFamily>, from: nat)
    requires from <= |fams| && !FoundAll(fams, from)
    ensures FoundAll(fams, Examined(fams, from)) <==> FoundAll(fams, |fams|)
    ensures forall k :: from <= k < Examined(fams, from) ==> !FoundAll(fams, k)
    decreases |fams| - from
  {
    if from < |fams| {
      if FoundAll(fams, from + 1) {
        FoundAllGrows(fams, from + 1, |fams|);
      } else {
        ExaminedIsShortest(fams, from + 1);
      }
    }
  }

  /** What the selection gives for the whole list: success exactly when some families offer all three, and no earlier stop was possible. */
  lemma SelectionIsShortest(fams: seq<QueueFamily>)
    ensures FoundAll(fams, Examined(fams, 0)) <==> FoundAll(fams, |fams|)
    ensures forall k :: 0 <= k < Examined(fams, 0) ==> !FoundAll(fams, k)
  {
    ExaminedIsShortest(fams, 0);
  }

  /** Once found, a capability stays found in every longer prefix. */
  lemma FoundAllGrows(fams: seq<QueueFamily>, n: nat, n2: nat)
    requires n <= n2 <= |fams|
    requires FoundAll(fams, n)
    ensures FoundAll(fams, n2)
  {
    var g := LastWith(fams, n, IsGraphics).value;
    var p := LastWith(fams, n, IsPresent).value;
    var c := LastWith(fams, n, IsCompute).value;
    assert LastWith(fams, n2, IsGraphics).Some? by { assert IsGraphics(fams[g]); }
    assert LastWith(fams, n2, IsPresent).Some? by { assert IsPresent(fams[p]); }
    assert LastWith(fams, n2, IsCompute).Some? by { assert IsCompute(fams[c]); }
  }

  /** One create-info when a single family serves all three, three when they all differ. */
  lemma CreateInfoCounts(gfx: nat, present: nat, compute: nat)
    ensures gfx == present == compute ==> UniqueQueueFamilies(gfx, present, compute) == [gfx]
    ensures gfx != present && present != compute && gfx != compute ==> |UniqueQueueFamilies(gfx, present, compute)| == 3
  {
  }
}
