/**
 * The state bookkeeping of engine/render/HPipeline.cpp: a graphics pipeline
 * records the fixed-function state infos set on it, and when it is created
 * every info still missing is filled with a default.  Vulkan objects are
 * opaque handles (0 is `VK_NULL_HANDLE`/`nullptr`), an info pointer is
 * `None` when null, and enumerator values are those of the Vulkan headers.
 */
module Pipeline {
  import opened Wrappers

  /** An opaque Vulkan handle or pointer; 0 is null. */
  type Handle = nat
  const NullHandle: Handle := 0

  // Vulkan enumerator values used by the defaults.
  const TopologyTriangleList: nat := 3
  const PolygonModeFill: nat := 0
  const CullModeNone: nat := 0
  const FrontFaceCounterClockwise: nat := 0
  const SampleCount1Bit: nat := 1
  const LogicOpCopy: nat := 3
  const ColorComponentRgba: nat := 0xF
  const DynamicStateViewport: nat := 0
  const DynamicStateScissor: nat := 1

  /** The fields of each state info that the engine sets. */
  datatype VertexInputInfo = VertexInputInfo(bindingDescriptionCount: nat, attributeDescriptionCount: nat)
  datatype InputAssemblyInfo = InputAssemblyInfo(topology: nat, primitiveRestartEnable: bool)
  datatype ViewportStateInfo = ViewportStateInfo(viewportCount: nat, scissorCount: nat)
  datatype RasterizerInfo = RasterizerInfo(depthClampEnable: bool, rasterizerDiscardEnable: bool, polygonMode: nat,
                                           lineWidth: real, cullMode: nat, frontFace: nat, depthBiasEnable: bool)
  datatype MultisampleInfo = MultisampleInfo(sampleShadingEnable: bool, rasterizationSamples: nat)
  datatype ColorBlendInfo = ColorBlendInfo(colorWriteMask: nat, blendEnable: bool, logicOpEnable: bool, logicOp: nat,
                                           attachmentCount: nat, blendConstants: seq<real>)
  datatype DynamicStateInfo = DynamicStateInfo(dynamicStates: seq<nat>, dynamicStateCount: nat)

  /** The seven state-info pointers of a pipeline; `None` is a null pointer. */
  datatype PipelineStates = PipelineStates(
    vertexInput: Option<VertexInputInfo>,
    inputAssembly: Option<InputAssemblyInfo>,
    viewportState: Option<ViewportStateInfo>,
    rasterizer: Option<RasterizerInfo>,
    multisampling: Option<MultisampleInfo>,
    colorBlending: Option<ColorBlendInfo>,
    dynamicState: Option<DynamicStateInfo>)

  /** The slots the destructor may `delete`. */
  datatype Slot = VertexInputSlot | InputAssemblySlot | ViewportStateSlot | RasterizerSlot
                | MultisamplingSlot | ColorBlendingSlot | DynamicStateSlot

  /** `SetDefaultVertexInputInfo`: no bindings and no attributes. */
  const DefaultVertexInput := VertexInputInfo(0, 0)
  /** `SetDefaultInputAssemblyInfo`: a triangle list without primitive restart. */
  const DefaultInputAssembly := InputAssemblyInfo(TopologyTriangleList, false)
  /** `SetDefaultViewportStateInfo`: one viewport and one scissor. */
  const DefaultViewportState := ViewportStateInfo(1, 1)
  /** `SetDefaultRasterizerInfo`: filled polygons, no culling, counter-clockwise front faces, width 1. */
  const DefaultRasterizer := RasterizerInfo(false, false, PolygonModeFill, 1.0, CullModeNone, FrontFaceCounterClockwise, false)
  /** `SetDefaultMultisamplingInfo`: one sample, no sample shading. */
  const DefaultMultisampling := MultisampleInfo(false, SampleCount1Bit)
  /** `SetDefaultColorBlendingInfo`: one attachment writing RGBA without blending, logic op copy (disabled), zero constants. */
  const DefaultColorBlending := ColorBlendInfo(ColorComponentRgba, false, false, LogicOpCopy, 1, [0.0, 0.0, 0.0, 0.0])
  /** `SetDefaultDynamicStateInfo`: viewport and scissor are dynamic; the count is the vector's size. */
  const DefaultDynamicState := DynamicStateInfo([DynamicStateViewport, DynamicStateScissor], 2)

  /** A slot keeps its info if one was set, else gets the default. */
  function OrDefault<T>(slot: Option<T>, default: T): (r: T)
    ensures slot.Some? ==> r == slot.value
    ensures slot.None? ==> r == default
  {
    if slot.Some? then slot.value else default
  }

  /** The states after `CreatePipeline`'s default filling. */
  function Filled(s: PipelineStates): (r: PipelineStates)
    ensures r.vertexInput == Some(OrDefault(s.vertexInput, DefaultVertexInput))
    ensures r.inputAssembly == Some(OrDefault(s.inputAssembly, DefaultInputAssembly))
    ensures r.viewportState == Some(OrDefault(s.viewportState, DefaultViewportState))
    ensures r.rasterizer == Some(OrDefault(s.rasterizer, DefaultRasterizer))
    ensures r.multisampling == Some(OrDefault(s.multisampling, DefaultMultisampling))
    ensures r.colorBlending == Some(OrDefault(s.colorBlending, DefaultColorBlending))
    ensures r.dynamicState == Some(OrDefault(s.dynamicState, DefaultDynamicState))
  {
    PipelineStates(
      Some(OrDefault(s.vertexInput, DefaultVertexInput)),
      Some(OrDefault(s.inputAssembly, DefaultInputAssembly)),
      Some(OrDefault(s.viewportState, DefaultViewportState)),
      Some(OrDefault(s.rasterizer, DefaultRasterizer)),
      Some(OrDefault(s.multisampling, DefaultMultisampling)),
      Some(OrDefault(s.colorBlending, DefaultColorBlending)),
      Some(OrDefault(s.dynamicState, DefaultDynamicState)))
  }

  /** Whether every slot holds an info. */
  predicate AllSet(s: PipelineStates) {
    s.vertexInput.Some? && s.inputAssembly.Some? && s.viewportState.Some? && s.rasterizer.Some? &&
    s.multisampling.Some? && s.colorBlending.Some? && s.dynamicState.Some?
  }

  /** What `CreatePipeline` hands to `vkCreateGraphicsPipelines`. */
  datatype GraphicsPipelineCreateInfo = GraphicsPipelineCreateInfo(
    pNext: Handle, stageCount: nat, pStages: Handle, states: PipelineStates,
    layout: Handle, renderPass: Handle, basePipelineHandle: Handle, pDepthStencilState: Handle)

  /** `HPipeline`: the recorded infos and handles. */
  class HPipeline {
    var pipeline: Handle
    var stgCnt: nat
    var pShaderStgInfos: Handle
    var pNext: Handle
    var states: PipelineStates
    var pipelineLayout: Handle
    var isVertexInputInfoDefault: bool
    var device: Handle
    var pDepthStencilState: Handle

    /** A new pipeline: every handle and info pointer null, no stages, no default vertex input. */
    constructor()
      ensures pipeline == NullHandle && stgCnt == 0 && pShaderStgInfos == NullHandle && pNext == NullHandle
      ensures states == PipelineStates(None, None, None, None, None, None, None)
      ensures pipelineLayout == NullHandle && !isVertexInputInfoDefault && device == NullHandle
      ensures pDepthStencilState == NullHandle
    {
      pipeline, stgCnt, pShaderStgInfos, pNext := NullHandle, 0, NullHandle, NullHandle;
      states := PipelineStates(None, None, None, None, None, None, None);
      pipelineLayout, isVertexInputInfoDefault, device := NullHandle, false, NullHandle;
      pDepthStencilState := NullHandle;
    }

    /** `SetVertexInputInfo`: a caller-owned vertex input info, which the pipeline will not free. */
    method SetVertexInputInfo(info: VertexInputInfo)
      modifies this
      ensures states == old(states).(vertexInput := Some(info))
      ensures isVertexInputInfoDefault == old(isVertexInputInfoDefault)
      ensures stgCnt == old(stgCnt) && pShaderStgInfos == old(pShaderStgInfos) && device == old(device)
    {
      states := states.(vertexInput := Some(info));
    }

    /** `SetShaderStageInfo`: records exactly the given stage array and count. */
    method SetShaderStageInfo(shaderStgInfo: Handle, cnt: nat)
      modifies this
      ensures stgCnt == cnt && pShaderStgInfos == shaderStgInfo
      ensures states == old(states) && isVertexInputInfoDefault == old(isVertexInputInfoDefault) && device == old(device)
    {
      stgCnt := cnt;
      pShaderStgInfos := shaderStgInfo;
    }

    /**
     * `CreatePipeline`: there must be shader stages; each missing info gets
     * its default (the vertex input one marked as owned by the pipeline),
     * and the create-info takes the stages, the infos, the layout and a
     * null render pass.  `created` is the handle Vulkan writes back.
     */
    method CreatePipeline(dev: Handle, created: Handle) returns (info: GraphicsPipelineCreateInfo)
      requires stgCnt != 0
      modifies this
      ensures device == dev && pipeline == created
      ensures states == Filled(old(states))
      ensures isVertexInputInfoDefault == (old(isVertexInputInfoDefault) || old(states).vertexInput.None?)
      ensures stgCnt == old(stgCnt) && pShaderStgInfos == old(pShaderStgInfos)
      ensures info == GraphicsPipelineCreateInfo(pNext, stgCnt, pShaderStgInfos, states, pipelineLayout,
                                                 NullHandle, NullHandle, pDepthStencilState)
    {
      device := dev;
      var vertexInput, inputAssembly, viewportState := states.vertexInput, states.inputAssembly, states.viewportState;
      var rasterizer, multisampling := states.rasterizer, states.multisampling;
      var colorBlending, dynamicState := states.colorBlending, states.dynamicState;
      if vertexInput.None? {
        vertexInput := Some(DefaultVertexInput);
        isVertexInputInfoDefault := true;
      }
      if inputAssembly.None? {
        inputAssembly := Some(DefaultInputAssembly);
      }
      if viewportState.None? {
        viewportState := Some(DefaultViewportState);
      }
      if rasterizer.None? {
        rasterizer := Some(DefaultRasterizer);
      }
      if multisampling.None? {
        multisampling := Some(DefaultMultisampling);
      }
      if colorBlending.None? {
        colorBlending := Some(DefaultColorBlending);
      }
      if dynamicState.None? {
        dynamicState := Some(DefaultDynamicState);
      }
      states := PipelineStates(vertexInput, inputAssembly, viewportState, rasterizer, multisampling, colorBlending, dynamicState);
      info := GraphicsPipelineCreateInfo(pNext, stgCnt, pShaderStgInfos, states, pipelineLayout,
                                         NullHandle, NullHandle, pDepthStencilState);
      pipeline := created;
    }

    /**
     * `~HPipeline`: the infos it deletes, and whether it destroys the
     * Vulkan pipeline.  The vertex input info is deleted only when it is
     * the pipeline's own default.
     */
    method Destroy() returns (deleted: set<Slot>, destroysPipeline: bool)
      ensures forall slot :: slot in deleted <==> Frees(states, isVertexInputInfoDefault, slot)
      ensures destroysPipeline <==> device != NullHandle
    {
      deleted := {};
      if states.vertexInput.Some? && isVertexInputInfoDefault {
        deleted := deleted + {VertexInputSlot};
      }
      if states.inputAssembly.Some? {
        deleted := deleted + {InputAssemblySlot};
      }
      if states.viewportState.Some? {
        deleted := deleted + {ViewportStateSlot};
      }
      if states.rasterizer.Some? {
        deleted := deleted + {RasterizerSlot};
      }
      if states.multisampling.Some? {
        deleted := deleted + {MultisamplingSlot};
      }
      if states.colorBlending.Some? {
        deleted := deleted + {ColorBlendingSlot};
      }
      if states.dynamicState.Some? {
        deleted := deleted + {DynamicStateSlot};
      }
      destroysPipeline := device != NullHandle;
    }
  }

  /** Whether the destructor deletes one slot: a non-null one, the vertex input only when it is the default. */
  predicate Frees(s: PipelineStates, vertexInputIsDefault: bool, slot: Slot) {
    match slot
    case VertexInputSlot => s.vertexInput.Some? && vertexInputIsDefault
    case InputAssemblySlot => s.inputAssembly.Some?
    case ViewportStateSlot => s.viewportState.Some?
    case RasterizerSlot => s.rasterizer.Some?
    case MultisamplingSlot => s.multisampling.Some?
    case ColorBlendingSlot => s.colorBlending.Some?
    case DynamicStateSlot => s.dynamicState.Some?
  }

  /** Every slot. */
  const AllSlots: set<Slot> := {VertexInputSlot, InputAssemblySlot, ViewportStateSlot, RasterizerSlot,
                                MultisamplingSlot, ColorBlendingSlot, DynamicStateSlot}

  /** The slots the destructor deletes. */
  function Deleted(s: PipelineStates, vertexInputIsDefault: bool): (r: set<Slot>)
    ensures forall slot :: slot in r <==> Frees(s, vertexInputIsDefault, slot)
  {
    set slot | slot in AllSlots && Frees(s, vertexInputIsDefault, slot)
  }

  // ---------------------------------------------------------------------------
  // Properties
  // ---------------------------------------------------------------------------

  /** After creation every slot holds an info, and filling again changes nothing. */
  lemma FilledIsComplete(s: PipelineStates)
    ensures AllSet(Filled(s))
    ensures Filled(Filled(s)) == Filled(s)
    ensures AllSet(s) ==> Filled(s) == s
  {
  }

  /** An info set before creation is the one used; a missing one becomes the default. */
  lemma FilledKeepsWhatWasSet(s: PipelineStates)
    ensures s.rasterizer.Some? ==> Filled(s).rasterizer == s.rasterizer
    ensures s.rasterizer.None? ==> Filled(s).rasterizer == Some(DefaultRasterizer)
    ensures s.vertexInput.Some? ==> Filled(s).vertexInput == s.vertexInput
  {
  }

  /** The default dynamic state lists viewport and scissor, and its count agrees with the list. */
  lemma DefaultDynamicStateIsConsistent(s: PipelineStates)
    requires s.dynamicState.None?
    ensures Filled(s).dynamicState.value.dynamicStates == [DynamicStateViewport, DynamicStateScissor]
    ensures Filled(s).dynamicState.value.dynamicStateCount == |Filled(s).dynamicState.value.dynamicStates|
  {
  }

  /**
   * For a pipeline created once, the destructor frees the vertex input info
   * exactly when creation installed the default, and frees every other slot.
   */
  lemma DestructorFreesOwnDefaultOnly(s: PipelineStates)
    ensures var d := Deleted(Filled(s), s.vertexInput.None?);
      (VertexInputSlot in d <==> s.vertexInput.None?) &&
      d == (if s.vertexInput.None? then {VertexInputSlot} else {}) +
           {InputAssemblySlot, ViewportStateSlot, RasterizerSlot, MultisamplingSlot, ColorBlendingSlot, DynamicStateSlot}
  {
  }
}
