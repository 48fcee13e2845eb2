/** `create_compute_pipeline` and `create_raster_pipeline` up to the driver
    calls: which reflected layout is synthesized with which stage flags and
    overrides, which push-constant range the pipeline layout gets, and which
    shader stages the pipeline is built from. Shader-module and pipeline
    creation are not modelled; the create-infos are the result. */
module Pipeline {
  import opened Wrappers
  import opened Vk
  import opened Reflection
  import opened SamplerName
  import opened DescriptorLayout
  import opened StageMerge
  import opened RenderPass

  datatype PushConstantRange = PushConstantRange(stageFlags: ShaderStageFlags, offset: nat, size: nat)

  /** `vk::PipelineLayoutCreateInfo`: the set layouts, where Vulkan reads
      position `i` as the layout of descriptor set `i`, and the push-constant
      ranges. */
  datatype PipelineLayoutInfo = PipelineLayoutInfo(
    setLayouts: seq<SetLayoutInfo>,
    pushConstantRanges: seq<PushConstantRange>)

  /** A set index the shaders do not use gets a layout with no bindings. */
  const EMPTY_SET_LAYOUT: SetLayoutInfo := SetLayoutInfo(NO_FLAGS, map[])

  /** Every set's layout sits at the position Vulkan reads for that set. */
  predicate BindsBySetIndex(positions: seq<SetLayoutInfo>, layouts: map<nat, SetLayoutInfo>) {
    forall s | s in layouts :: s < |positions| && positions[s] == layouts[s]
  }

  /** `positions` binds every set by index, pads unused indices below the
      largest set with empty layouts, and has nothing after the largest set. */
  predicate PlacedBySetIndex(positions: seq<SetLayoutInfo>, layouts: map<nat, SetLayoutInfo>) {
    && BindsBySetIndex(positions, layouts)
    && (forall i | 0 <= i < |positions| && i !in layouts :: positions[i] == EMPTY_SET_LAYOUT)
    && (|positions| == 0 || |positions| - 1 in layouts)
  }

  /** With sets 0 and 2, whatever the iteration order, the `Vec` has two
      entries, so nothing sits at position 2 and set 2 is not bound. */
  lemma SparseSetsMisbound(layout0: SetLayoutInfo, layout2: SetLayoutInfo, order: seq<nat>)
    requires multiset(order) == multiset({0, 2})
    ensures var layouts := map[0 := layout0, 2 := layout2];
      !BindsBySetIndex(SetLayoutsInIterationOrder(layouts, order), layouts)
  {
    var layouts := map[0 := layout0, 2 := layout2];
    assert layouts.Keys == {0, 2};
    assert |SetLayoutsInIterationOrder(layouts, order)| == 2;
  }

  /** In general, once some set index is not below the number of sets, no
      iteration order binds every set at its index. */
  lemma SparseIndicesMisbound(layouts: map<nat, SetLayoutInfo>, order: seq<nat>, s: nat)
    requires multiset(order) == multiset(layouts.Keys)
    requires s in layouts && s >= |layouts|
    ensures !BindsBySetIndex(SetLayoutsInIterationOrder(layouts, order), layouts)
  {
  }

  /** With sets 0 and 1 iterated as 1, 0, two different layouts swap sets. */
  lemma SwappedSetsMisbound(layout0: SetLayoutInfo, layout1: SetLayoutInfo)
    requires layout0 != layout1
    ensures var layouts := map[0 := layout0, 1 := layout1];
      !BindsBySetIndex(SetLayoutsInIterationOrder(layouts, [1, 0]), layouts)
  {
  }

  /** The set layouts as Vulkan needs them: position `i` holds set `i`, with
      empty layouts for unused indices below the largest set. */
  method PipelineSetLayouts(layouts: map<nat, SetLayoutInfo>) returns (r: seq<SetLayoutInfo>)
    ensures PlacedBySetIndex(r, layouts)
  {
    var count := 0;
    var todo := layouts.Keys;
    while todo != {}
      invariant todo <= layouts.Keys
      invariant forall s | s in layouts && s !in todo :: s < count
      invariant count == 0 || count - 1 in layouts
      decreases todo
    {
      var s :| s in todo;
      if count <= s {
        count := s + 1;
      }
      todo := todo - {s};
    }
    r := seq(count, i requires 0 <= i < count => if i in layouts then layouts[i] else EMPTY_SET_LAYOUT);
  }

  /** At most one sequence is placed by set index, so the placement is fully
      determined by the layouts. */
  lemma PlacementUnique(p: seq<SetLayoutInfo>, q: seq<SetLayoutInfo>, layouts: map<nat, SetLayoutInfo>)
    requires PlacedBySetIndex(p, layouts) && PlacedBySetIndex(q, layouts)
    ensures p == q
  {
  }

  /** `vk::PipelineShaderStageCreateInfo` without the module handle. */
  datatype ShaderStageInfo = ShaderStageInfo(stage: ShaderStageFlags, entryName: string)

  /** `ComputePipelineDesc`, with the shader's reflected layout standing for
      its SPIR-V. */
  datatype ComputePipelineDesc = ComputePipelineDesc(
    reflection: StageLayout,
    entryName: string,
    descriptorSetLayoutFlags: Option<seq<SetFlagsOverride>>,
    pushConstantsBytes: nat)

  datatype ComputePipelineInfo = ComputePipelineInfo(layout: PipelineLayoutInfo, stage: ShaderStageInfo)

  /** The push-constant ranges of a compute pipeline layout: none for zero
      bytes, otherwise one range at offset 0 visible to the compute stage,
      whose size is the byte count cast to `u32`. */
  function ComputePushConstantRanges(bytes: nat): (r: seq<PushConstantRange>)
    ensures |r| == 1 <==> bytes > 0
    ensures |r| == 0 <==> bytes == 0
    ensures forall i | 0 <= i < |r| :: r[i] == PushConstantRange(COMPUTE, 0, AsU32(bytes))
    ensures 0 < bytes < U32_MODULUS ==> r == [PushConstantRange(COMPUTE, 0, bytes)]
  {
    if bytes > 0 then [PushConstantRange(COMPUTE, 0, AsU32(bytes))] else []
  }

  /** `create_compute_pipeline`: synthesize the shader's set layouts for the
      compute stage with the caller's overrides (none when absent), add the
      push-constant range, and build a compute stage with the entry name. */
  method CreateComputePipeline(desc: ComputePipelineDesc) returns (r: Result<ComputePipelineInfo, SynthError>)
    ensures r.Success? <==> Synthesizable(desc.reflection, COMPUTE)
    ensures r.Success? ==> exists order: seq<nat> | multiset(order) == multiset(desc.reflection.Keys) ::
      r.value.layout.setLayouts == SetLayoutsInIterationOrder(SetLayouts(desc.reflection, COMPUTE, desc.descriptorSetLayoutFlags.GetOr([])), order)
    ensures r.Success? ==> r.value.layout.pushConstantRanges == ComputePushConstantRanges(desc.pushConstantsBytes)
    ensures r.Success? ==> r.value.stage == ShaderStageInfo(COMPUTE, desc.entryName)
    ensures r.Failure? ==>
      && HasSlot(desc.reflection, r.error.setIndex, r.error.binding)
      && SynthesizeBinding(r.error.binding, desc.reflection[r.error.setIndex][r.error.binding], COMPUTE).Failure?
  {
    var setLayouts, order :- CreateDescriptorSetLayouts(desc.reflection, COMPUTE, desc.descriptorSetLayoutFlags.GetOr([]));
    var layout := PipelineLayoutInfo(setLayouts, ComputePushConstantRanges(desc.pushConstantsBytes));
    return Success(ComputePipelineInfo(layout, ShaderStageInfo(COMPUTE, desc.entryName)));
  }

  datatype RasterStage = Vertex | Pixel

  /** The shader stage flag of a raster stage. */
  function RasterStageFlags(stage: RasterStage): (r: ShaderStageFlags)
    ensures r == VERTEX <==> stage == Vertex
    ensures r == FRAGMENT <==> stage == Pixel
  {
    match stage
    case Vertex => VERTEX
    case Pixel => FRAGMENT
  }

  /** Both raster stage flags are single stages inside ALL_GRAPHICS, and the
      two stages get different flags. */
  lemma RasterStageFlagsGraphics(a: RasterStage, b: RasterStage)
    ensures RasterStageFlags(a) != 0 && RasterStageFlags(a) & ALL_GRAPHICS == RasterStageFlags(a)
    ensures RasterStageFlags(a) & COMPUTE == 0
    ensures RasterStageFlags(a) == RasterStageFlags(b) ==> a == b
  {
  }

  /** `RasterShaderDesc`. The per-shader overrides and push-constant size
      exist in the source but the raster path never reads them. */
  datatype RasterShaderDesc = RasterShaderDesc(
    stage: RasterStage,
    reflection: StageLayout,
    entryName: string,
    descriptorSetLayoutFlags: Option<seq<SetFlagsOverride>>,
    pushConstantsBytes: nat)

  datatype RasterPipelineDesc = RasterPipelineDesc(shaders: seq<RasterShaderDesc>, renderPass: RenderPassInfo)

  /** The raster pipeline keeps (a shared reference to) its render pass. */
  datatype RasterPipelineInfo = RasterPipelineInfo(
    layout: PipelineLayoutInfo,
    stages: seq<ShaderStageInfo>,
    renderPass: RenderPassInfo)

  datatype RasterError =
    | LayoutConflict(conflict: Conflict)
    | UnsupportedBinding(error: SynthError)

  function StageReflections(shaders: seq<RasterShaderDesc>): (r: seq<StageLayout>)
    ensures |r| == |shaders|
    ensures forall i | 0 <= i < |shaders| :: r[i] == shaders[i].reflection
  {
    seq(|shaders|, i requires 0 <= i < |shaders| => shaders[i].reflection)
  }

  function ShaderStages(shaders: seq<RasterShaderDesc>): (r: seq<ShaderStageInfo>)
    ensures |r| == |shaders|
    ensures forall i | 0 <= i < |shaders| ::
      r[i].stage == RasterStageFlags(shaders[i].stage) && r[i].entryName == shaders[i].entryName
  {
    seq(|shaders|, i requires 0 <= i < |shaders| => ShaderStageInfo(RasterStageFlags(shaders[i].stage), shaders[i].entryName))
  }

  /** `create_raster_pipeline`: merge the stages' reflected layouts, then
      synthesize set layouts visible to all graphics stages with no flag
      overrides and no push constants, and build one stage per shader, in
      order. A layout conflict is reported before any synthesis. */
  method CreateRasterPipeline(desc: RasterPipelineDesc) returns (r: Result<RasterPipelineInfo, RasterError>)
    ensures r.Failure? && r.error.LayoutConflict? <==> StagesConflict(StageReflections(desc.shaders))
    ensures r.Failure? && r.error.LayoutConflict? ==> exists i, j | 0 <= i < j < |desc.shaders| ::
      SlotConflict(desc.shaders[j].reflection, desc.shaders[i].reflection, r.error.conflict.setIndex, r.error.conflict.binding)
    ensures r.Success? <==>
      !StagesConflict(StageReflections(desc.shaders))
      && Synthesizable(MergedStages(StageReflections(desc.shaders)), ALL_GRAPHICS)
    ensures r.Success? ==> exists order: seq<nat> | multiset(order) == multiset(MergedStages(StageReflections(desc.shaders)).Keys) ::
      r.value.layout.setLayouts == SetLayoutsInIterationOrder(SetLayouts(MergedStages(StageReflections(desc.shaders)), ALL_GRAPHICS, []), order)
    ensures r.Success? ==> r.value.layout.pushConstantRanges == []
    ensures r.Success? ==> forall i | 0 <= i < |r.value.layout.setLayouts| :: r.value.layout.setLayouts[i].flags == NO_FLAGS
    ensures r.Success? ==> r.value.stages == ShaderStages(desc.shaders) && r.value.renderPass == desc.renderPass
  {
    var reflections := StageReflections(desc.shaders);
    var merged := MergeShaderStageLayouts(reflections);
    if merged.Failure? {
      return Failure(LayoutConflict(merged.error));
    }
    var setLayouts, order := CreateDescriptorSetLayouts(merged.value, ALL_GRAPHICS, []);
    if setLayouts.Failure? {
      return Failure(UnsupportedBinding(setLayouts.error));
    }
    SetLayoutsShape(merged.value, ALL_GRAPHICS, []);
    var layout := PipelineLayoutInfo(setLayouts.value, []);
    return Success(RasterPipelineInfo(layout, ShaderStages(desc.shaders), desc.renderPass));
  }

  /** Scenario: one compute shader with a storage buffer at (0, 0) and no
      push constants gets one set layout holding one storage-buffer binding,
      and no push-constant range. */
  lemma ComputeStorageBufferScenario(name: string)
    ensures var refl: StageLayout := map[0 := map[0 := BindingInfo(StorageBuffer, name, 1)]];
      && Synthesizable(refl, COMPUTE)
      && SetLayouts(refl, COMPUTE, []) == map[0 := SetLayoutInfo(NO_FLAGS, map[0 := LayoutBinding(0, StorageBuffer, 1, COMPUTE, None)])]
      && ComputePushConstantRanges(0) == []
  {
    var refl: StageLayout := map[0 := map[0 := BindingInfo(StorageBuffer, name, 1)]];
    assert SetSynthesizable(refl[0], COMPUTE);
    assert SetBindings(refl[0], COMPUTE) == map[0 := LayoutBinding(0, StorageBuffer, 1, COMPUTE, None)];
  }

  /** Scenario: a vertex and a pixel stage that both declare `sampler_llc`
      at (0, 1) merge cleanly into one linear/linear/clamp-to-edge immutable
      sampler binding visible to all graphics stages. */
  lemma SharedSamplerScenario()
    ensures var stage: StageLayout := map[0 := map[1 := BindingInfo(Sampler, "sampler_llc", 1)]];
      && !StagesConflict([stage, stage])
      && MergedStages([stage, stage]) == stage
      && Synthesizable(stage, ALL_GRAPHICS)
      && SetLayouts(stage, ALL_GRAPHICS, [])[0].bindings[1]
         == LayoutBinding(1, Sampler, 1, ALL_GRAPHICS, Some(SamplerDesc(Linear, MipmapLinear, ClampToEdge)))
  {
    var stage: StageLayout := map[0 := map[1 := BindingInfo(Sampler, "sampler_llc", 1)]];
    MergedDegenerateCases(stage);
    DecodeLinearLinearClamp();
    assert SetSynthesizable(stage[0], ALL_GRAPHICS);
  }

  /** Scenario: two stages declaring slot (0, 2) with the same type and name
      merge; changing the type or the name in one of them makes the merge
      fail at (0, 2). */
  lemma ConflictScenario(info: BindingInfo, other: BindingInfo)
    ensures var x: StageLayout := map[0 := map[2 := info]];
      var y: StageLayout := map[0 := map[2 := other]];
      && (Compatible(info, other) ==> !StagesConflict([x, y]))
      && (!Compatible(info, other) ==> StagesConflict([x, y]) && SlotConflict(y, x, 0, 2))
  {
    var x: StageLayout := map[0 := map[2 := info]];
    var y: StageLayout := map[0 := map[2 := other]];
    PairConflict(x, y);
    if !Compatible(info, other) {
      assert SlotConflict(y, x, 0, 2);
    }
  }
}
