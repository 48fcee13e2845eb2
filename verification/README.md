# Shader layout logic of kajiya's Vulkan backend, in Dafny

This project models the pure layout logic of `src/backend/shader.rs` in the
kajiya renderer. That logic sits between SPIR-V reflection and the Vulkan
object-creation calls:

- **Descriptor-set-layout synthesis** (`create_descriptor_set_layouts`).
  Each reflected binding becomes a `vk::DescriptorSetLayoutBinding`. Uniform
  buffers become dynamic uniform buffers. Storage images, storage buffers,
  sampled images and samplers keep their kind. Every other type is
  `unimplemented!`. The count is always 1 and the caller's stage flags are
  applied. A SAMPLER binding must be named `sampler_<filter><mipmap><address>`,
  and the decoded sampler is attached as an immutable sampler. Per-set
  creation flags come from the first matching entry of a sparse override list.
- **Stage-layout merging** (`merge_shader_stage_layout_pair`,
  `merge_shader_stage_layouts`). This is a left fold over the stages'
  `set -> binding -> info` maps. The first entry for a slot wins. An
  `assert!` fires when two stages put a different type or name in one slot.
- **Pipeline-layout inputs** (`create_compute_pipeline`,
  `create_raster_pipeline`). The compute path uses COMPUTE visibility, the
  caller's overrides and an optional push-constant range. The raster path
  merges the stages and uses ALL_GRAPHICS visibility with no overrides. Its
  stages map `Vertex` to VERTEX and `Pixel` to FRAGMENT.
- **Render-pass compilation** (`RenderPassAttachmentDesc` builders,
  `create_render_pass`). The colour attachments come first, then the
  optional depth attachment. The references and layouts follow from that
  order.

Each `panic!`, `assert!` and `unimplemented!` becomes a `Failure` of a
`Result`. Iterating a `HashMap` becomes a method loop that picks keys in an
unspecified order (`:|`). Its postcondition ties the result to a pure
reference definition: `SetLayouts`, `Combine` and `MergedStages`. When
several bindings fail, the postcondition says only that the reported one
really fails. Which one the source reports depends on hash order.

Modules, one per concept: `Wrappers` (Option/Result), `Vk` (the Vulkan
enums and flag constants used), `Reflection` (reflected bindings),
`SamplerName`, `DescriptorLayout`, `StageMerge`, `RenderPass`, `Pipeline`.

Behaviours of the code that a reader might not expect (the set-layout
order is one more; see "## Findings"):

- After the prefix, the sampler code is 3 or 4 characters long, because the
  address code can be `mr` or `cb`.
- The depth attachment's description uses COLOR_ATTACHMENT_OPTIMAL as its
  initial and final layout. Only its reference uses
  DEPTH_ATTACHMENT_STENCIL_READ_ONLY_OPTIMAL.
- A merge conflict in the code does not name the slot (a bare `assert!`).
  The model's error names the slot and which field differed.

## Model

| member | source | states |
|---|---|---|
| Vk.AsU32 | src/backend/shader.rs:173 | the `as u32` cast keeps a value below 2^32 that is congruent to the input modulo 2^32, so values that fit are unchanged |
| SamplerName.DecodeSamplerName | src/backend/shader.rs:62-105 | the failure is MissingPrefix exactly when the name lacks `sampler_`; every accepted name is the canonical encoding of the sampler it decodes to |
| SamplerName.DecodeEncodeRoundTrip | src/backend/shader.rs:62-85 | decoding the name of any of the 16 (filter, mipmap, address) triples gives that triple back |
| SamplerName.AcceptedIffEncoding | src/backend/shader.rs:62-85 | a name is accepted if and only if it is the encoding of some sampler triple |
| SamplerName.SamplerNameInjective | src/backend/shader.rs:79-85 | distinct sampler triples have distinct names |
| SamplerName.AcceptedNamesSpelledOut | src/backend/shader.rs:63-85 | accepted exactly when the name is `sampler_`, then `n`/`l`, then `n`/`l`, then exactly one of `r`, `mr`, `c`, `cb` |
| SamplerName.DecodeRejects | src/backend/shader.rs:65-85 | a missing or bad filter char fails as BadTexelFilter, then a missing or bad mipmap char as BadMipmapMode, then any other remainder as BadAddressMode |
| SamplerName.DecodeLinearLinearClamp | src/backend/shader.rs:62-85 | `sampler_llc` decodes to linear filter, linear mipmap, clamp to edge |
| DescriptorLayout.NativeDescriptorType | src/backend/shader.rs:28-62 | a native type exists exactly for the five supported kinds; UNIFORM_BUFFER maps to UNIFORM_BUFFER_DYNAMIC and the other four to themselves |
| DescriptorLayout.NativeDescriptorTypeInjective | src/backend/shader.rs:36-45 | distinct supported types never map to the same native type, and none maps to a plain uniform buffer |
| DescriptorLayout.SynthesizeBinding | src/backend/shader.rs:27-109 | succeeds iff the type is supported and, for a sampler, the name decodes; it fails with `UnsupportedDescriptor` or `MalformedSamplerName` accordingly; the result keeps the index, has count 1 and the caller's stage flags, and carries an immutable sampler (the decoded one) exactly for SAMPLER |
| DescriptorLayout.SynthesisIgnoresCount | src/backend/shader.rs:33-35 | the reflected array count has no effect on the synthesized binding |
| DescriptorLayout.LookupSetFlags | src/backend/shader.rs:112-116 | a set's flags are those of the first override entry with its index, and empty when no entry has it |
| DescriptorLayout.SetLayoutsShape | src/backend/shader.rs:22-116 | one layout per set key; each layout has exactly the reflected binding keys, each binding keeps its index, count 1, the stage flags argument, the mapped type, and an immutable sampler only on SAMPLER; the set's flags come from the override lookup |
| DescriptorLayout.CreateSetLayout | src/backend/shader.rs:25-116 | the per-set loop succeeds iff every binding of the set synthesizes, then yields the reference bindings and looked-up flags; otherwise it reports a binding of that set that fails |
| DescriptorLayout.SetLayoutsInIterationOrder | src/backend/shader.rs:22-131 | the collected `Vec` holds one layout per set, in hash iteration order: entry `i` is the layout of the `i`-th set visited |
| DescriptorLayout.CreateDescriptorSetLayouts | src/backend/shader.rs:14-132 | succeeds iff every binding of every set synthesizes; then the sets were visited in some order listing each set once, and the result is the reference per-set layouts in that order; otherwise it reports a (set, binding) slot whose synthesis fails, with that failure |
| StageMerge.CombineSlots | src/backend/shader.rs:553-573 | the merged key sets, per set and per binding, are the union of both; an existing entry is never overwritten; the incoming stage only fills missing slots |
| StageMerge.CombineEmpty | src/backend/shader.rs:577-583 | merging with the empty layout on either side changes nothing |
| StageMerge.CombineSelf | src/backend/shader.rs:549-575 | a layout never conflicts with itself, and merging it into itself leaves it unchanged |
| StageMerge.CombineAssociative | src/backend/shader.rs:549-586 | which entry wins a slot does not depend on how merges are grouped |
| StageMerge.CombineAt | src/backend/shader.rs:553-573 | per set, the merge is the union of the two binding maps in which the existing map wins |
| StageMerge.FirstCountKept | src/backend/shader.rs:557-566 | a stage differing only in one binding's count does not conflict, and the first stage's count is kept |
| StageMerge.MergeSetPair | src/backend/shader.rs:557-568 | the per-set loop succeeds iff every shared binding agrees in type and name, then yields the union with existing entries kept; otherwise it reports a shared binding that disagrees, and whether the type (checked first) differs |
| StageMerge.MergeShaderStageLayoutPair | src/backend/shader.rs:549-575 | the pair merge fails iff some (set, binding) occurs in both with a different type or name, reports such a slot, and otherwise yields the reference union |
| StageMerge.MergedSlots | src/backend/shader.rs:577-586 | the folded layout holds exactly the sets and slots of the stages, and each slot's binding is one of theirs |
| StageMerge.MergedFirstWins | src/backend/shader.rs:577-586 | each slot of the folded layout holds the binding of the first stage declaring it |
| StageMerge.MergedCompatible | src/backend/shader.rs:577-586 | without conflicts, every stage's binding in a slot agrees in type and name with the folded one |
| StageMerge.StepConflict | src/backend/shader.rs:581-583 | a stage conflicts with the fold of conflict-free stages iff it conflicts with one of them, at the same slot |
| StageMerge.AppendConflict | src/backend/shader.rs:581-583 | appending a stage adds a conflict iff it conflicts with an earlier stage |
| StageMerge.MergeShaderStageLayouts | src/backend/shader.rs:577-586 | the fold fails iff two stages disagree on type or name in one slot, reports such a slot, and otherwise yields the reference left fold |
| StageMerge.MergedAppend | src/backend/shader.rs:577-586 | folding `a + b` equals merging the fold of `b` into the fold of `a` |
| StageMerge.MergeGroupsEquivalent | src/backend/shader.rs:577-586 | merging groups of stages and then their results fails in exactly the cases the direct merge fails, and gives the same layout |
| StageMerge.MergePartitionEquivalent | src/backend/shader.rs:577-586 | for any split of the stages into consecutive groups, merging each group and then the group results gives the direct merge's layout, and fails exactly when the direct merge fails (inside some group or between group results) |
| StageMerge.ConflictsSymmetric | src/backend/shader.rs:557-566 | two layouts conflict regardless of which one is merged into the other |
| StageMerge.StagesConflictPermutation | src/backend/shader.rs:577-586 | whether the fold fails does not depend on the order of the stages (only the winning entries do) |
| StageMerge.MergedDegenerateCases | src/backend/shader.rs:577-580 | no stages give the empty layout, one stage is returned verbatim, and a layout merged with itself is unchanged and conflict-free |
| RenderPass.NewAttachment | src/backend/shader.rs:273-280 | a new attachment keeps the format, loads and stores, and its sample mask is TYPE_1 |
| RenderPass.GarbageInput | src/backend/shader.rs:282-285 | sets the load op to DONT_CARE and nothing else |
| RenderPass.ClearInput | src/backend/shader.rs:287-290 | sets the load op to CLEAR and nothing else |
| RenderPass.DiscardOutput | src/backend/shader.rs:292-295 | sets the store op to DONT_CARE and nothing else |
| RenderPass.BuilderAlgebra | src/backend/shader.rs:282-295 | each builder is idempotent, the last load builder wins, and the store builder commutes with the load builders |
| RenderPass.ToVk | src/backend/shader.rs:297-311 | uses the given initial and final layouts and the default stencil ops and flags |
| RenderPass.ToVkRoundTrip | src/backend/shader.rs:297-311 | format, samples, load and store are copied unchanged into the native description |
| RenderPass.CreateRenderPass | src/backend/shader.rs:323-392 | N colour descriptions then the optional depth one, all COLOR_ATTACHMENT_OPTIMAL at start and end; one graphics subpass with colour references 0..N-1 (N cast to u32); a depth-stencil reference at N with DEPTH_ATTACHMENT_STENCIL_READ_ONLY_OPTIMAL iff depth is present |
| RenderPass.ReferencesResolve | src/backend/shader.rs:327-354 | with fewer than 2^32 colours, each colour reference names the attachment built from that colour, and the depth reference names the depth attachment |
| RenderPass.ClearedColorWithDepth | src/backend/shader.rs:323-376 | one cleared colour plus a default depth compile to two attachments, colour reference 0 and depth-stencil reference 1 |
| Pipeline.ComputePushConstantRanges | src/backend/shader.rs:170-179 | there is a push-constant range iff the byte count is non-zero; it is COMPUTE, offset 0, size the byte count cast to u32 |
| Pipeline.SparseSetsMisbound | src/backend/shader.rs:157-168 | with sets 0 and 2, in any iteration order, set 2 is not at position 2 of the layouts handed to Vulkan |
| Pipeline.SparseIndicesMisbound | src/backend/shader.rs:157-168 | whenever some set index is not below the number of sets, no iteration order binds every set at its index |
| Pipeline.SwappedSetsMisbound | src/backend/shader.rs:157-168 | with sets 0 and 1 iterated as 1, 0, set 0 gets set 1's layout |
| Pipeline.PipelineSetLayouts | src/backend/shader.rs:157-168 | corrected placement: position `i` holds set `i`'s layout, unused indices below the largest set get an empty layout, and the sequence ends at the largest set |
| Pipeline.PlacementUnique | src/backend/shader.rs:157-168 | that placement is the only one: two sequences placed by set index for the same layouts are equal |
| Pipeline.CreateComputePipeline | src/backend/shader.rs:156-217 | succeeds iff the reflected layout synthesizes for COMPUTE; the set layouts, built with the caller's overrides (none when absent), are passed on in the hash order they were collected in; the push-constant ranges are added; the stage is COMPUTE with the entry name |
| Pipeline.RasterStageFlags | src/backend/shader.rs:440-443 | Vertex maps to VERTEX and Pixel to FRAGMENT |
| Pipeline.RasterStageFlagsGraphics | src/backend/shader.rs:440-443 | both stage flags are non-empty, lie inside ALL_GRAPHICS, exclude COMPUTE, and differ |
| Pipeline.CreateRasterPipeline | src/backend/shader.rs:394-451 | fails with a layout conflict iff two stages conflict, and the reported slot is one where two shaders disagree; otherwise succeeds iff the merged layout synthesizes for ALL_GRAPHICS; the set layouts are passed on in the hash order they were collected in and all have empty flags, there are no push constants, and there is one stage per shader in order; the render pass is kept |
| Pipeline.ComputeStorageBufferScenario | src/backend/shader.rs:156-179 | a storage buffer at (0, 0) with no push constants gives one set layout with one storage-buffer binding and no push-constant range |
| Pipeline.SharedSamplerScenario | src/backend/shader.rs:409-415 | vertex and pixel stages both declaring `sampler_llc` at (0, 1) merge cleanly into a linear/linear/clamp-to-edge sampler binding visible to all graphics stages |
| Pipeline.ConflictScenario | src/backend/shader.rs:557-566 | two stages sharing slot (0, 2) merge iff type and name agree, and otherwise conflict at (0, 2) |

## Left out

- Vulkan object creation is left out. This covers `create_descriptor_set_layout`, `create_pipeline_layout`, `create_shader_module`, `create_compute_pipelines`, `create_graphics_pipelines` and `create_render_pass`. They are driver calls, so the model returns the create-info records they would receive. Their `unwrap`/`expect` failures are not modelled.
- SPIR-V reflection (`rspirv_reflect`) is a foreign library. Its output map is the model's input, in place of the bytecode. Its failures are not modelled.
- `Device::get_sampler` is defined outside this core. A sampler binding carries the decoded sampler request, which stands for the handle the cache returns. No caching behaviour is claimed.
- The order of the bindings inside a set layout is `HashMap` order. Vulkan reads each binding's own index, so the order does not matter, and the model keys bindings by index.
- DescriptorLayout.CreateDescriptorSetLayouts returns the order it visited the sets in, which stands for Rust's `HashMap` order, randomised per process. The pipeline methods state only that some such order was used.
- Pipeline.PipelineSetLayouts, the corrected placement, is not called by the pipeline methods, which pass on the hash-order list as the code does (see "## Findings").
- The fixed-function raster state (vertex input, topology, viewport, rasterizer, multisample, depth-stencil, blend, dynamic state) is left out. It is constant records that include floats, with no logic.
- `CString::new` on entry names is left out. It panics on an interior NUL, and that failure is not modelled. The entry name is carried unchanged.
- `as_slice_of::<u32>` on the SPIR-V bytes is left out. It panics when the length is not a multiple of 4, and the bytes are not part of the model.
- `TempList` lifetimes and `Arc` reference counting are left out. A raster pipeline holds its render pass by value.
- The `derive_builder` builders of the pipeline descriptions are left out. The descriptions are plain datatypes.
- Set and binding indices are unbounded naturals; they are `u32` in the source but no arithmetic is done on them.
- `src/device.rs` (device creation, extensions, features, allocator, queues) is not part of this model.

## Findings

| source | as written | input that shows it | evidently intended | confidence | as-written member | corrected member |
|---|---|---|---|---|---|---|
| src/backend/shader.rs:22-24, 131, 157-168, 409-419 | `create_descriptor_set_layouts` collects one layout per reflected set in `HashMap` iteration order, and that `Vec` goes straight to `set_layouts`, where Vulkan reads position `i` as set `i` | a shader using sets 0 and 2 (the `Vec` has two entries, so set 2 is never bound); or sets 0 and 1 with different layouts iterated as 1, 0 (they swap) | position `i` holds set `i`'s layout, with empty layouts for unused indices | medium, not executed | DescriptorLayout.SetLayoutsInIterationOrder, used by Pipeline.CreateComputePipeline and Pipeline.CreateRasterPipeline (Pipeline.SparseSetsMisbound, Pipeline.SparseIndicesMisbound, Pipeline.SwappedSetsMisbound) | Pipeline.PipelineSetLayouts (Pipeline.PlacementUnique) |
