/** `RenderPassAttachmentDesc` and `create_render_pass`: attachment
    descriptions with their builder methods, compiled into a single-subpass
    render pass. The `create_render_pass` driver call is not modelled; the
    create-info handed to it is the result. */
module RenderPass {
  import opened Wrappers
  import opened Vk

  /** What the caller says about one attachment. */
  datatype RenderPassAttachmentDesc = RenderPassAttachmentDesc(
    format: Format,
    loadOp: AttachmentLoadOp,
    storeOp: AttachmentStoreOp,
    samples: SampleCountFlags)

  /** `vk::AttachmentDescription`; fields the source leaves at `Default` are
      no flags and LOAD/STORE for the stencil aspect. */
  datatype AttachmentDescription = AttachmentDescription(
    flags: bv32,
    format: Format,
    samples: SampleCountFlags,
    loadOp: AttachmentLoadOp,
    storeOp: AttachmentStoreOp,
    stencilLoadOp: AttachmentLoadOp,
    stencilStoreOp: AttachmentStoreOp,
    initialLayout: ImageLayout,
    finalLayout: ImageLayout)

  datatype AttachmentReference = AttachmentReference(attachment: nat, layout: ImageLayout)

  datatype SubpassDescription = SubpassDescription(
    bindPoint: PipelineBindPoint,
    colorAttachments: seq<AttachmentReference>,
    depthStencilAttachment: Option<AttachmentReference>)

  datatype RenderPassDesc = RenderPassDesc(
    colorAttachments: seq<RenderPassAttachmentDesc>,
    depthAttachment: Option<RenderPassAttachmentDesc>)

  /** `vk::RenderPassCreateInfo`: the attachments and the subpasses. */
  datatype RenderPassInfo = RenderPassInfo(
    attachments: seq<AttachmentDescription>,
    subpasses: seq<SubpassDescription>)

  /** `RenderPassAttachmentDesc::new`: load and store the contents, one
      sample per pixel. */
  function NewAttachment(format: Format): (a: RenderPassAttachmentDesc)
    ensures a.format == format
    ensures a.loadOp == Load && a.storeOp == Store && a.samples == SAMPLE_COUNT_1
  {
    RenderPassAttachmentDesc(format, Load, Store, SAMPLE_COUNT_1)
  }

  /** `garbage_input`: previous contents are not needed. */
  function GarbageInput(a: RenderPassAttachmentDesc): (r: RenderPassAttachmentDesc)
    ensures r.loadOp == LoadDontCare
    ensures r.format == a.format && r.storeOp == a.storeOp && r.samples == a.samples
  {
    a.(loadOp := LoadDontCare)
  }

  /** `clear_input`: contents are cleared on load. */
  function ClearInput(a: RenderPassAttachmentDesc): (r: RenderPassAttachmentDesc)
    ensures r.loadOp == Clear
    ensures r.format == a.format && r.storeOp == a.storeOp && r.samples == a.samples
  {
    a.(loadOp := Clear)
  }

  /** `discard_output`: contents are not kept after the pass. */
  function DiscardOutput(a: RenderPassAttachmentDesc): (r: RenderPassAttachmentDesc)
    ensures r.storeOp == StoreDontCare
    ensures r.format == a.format && r.loadOp == a.loadOp && r.samples == a.samples
  {
    a.(storeOp := StoreDontCare)
  }

  /** Each builder is idempotent, the last load builder applied wins, and
      the store builder is independent of the load builders. */
  lemma BuilderAlgebra(a: RenderPassAttachmentDesc)
    ensures GarbageInput(GarbageInput(a)) == GarbageInput(a)
    ensures ClearInput(ClearInput(a)) == ClearInput(a)
    ensures DiscardOutput(DiscardOutput(a)) == DiscardOutput(a)
    ensures GarbageInput(ClearInput(a)) == GarbageInput(a)
    ensures ClearInput(GarbageInput(a)) == ClearInput(a)
    ensures DiscardOutput(GarbageInput(a)) == GarbageInput(DiscardOutput(a))
    ensures DiscardOutput(ClearInput(a)) == ClearInput(DiscardOutput(a))
  {
  }

  /** `to_vk`: the native description of an attachment, with the given
      image layouts at the start and end of the pass. */
  function ToVk(a: RenderPassAttachmentDesc, initialLayout: ImageLayout, finalLayout: ImageLayout): (d: AttachmentDescription)
    ensures d.initialLayout == initialLayout && d.finalLayout == finalLayout
    ensures d.stencilLoadOp == Load && d.stencilStoreOp == Store && d.flags == 0
  {
    AttachmentDescription(0, a.format, a.samples, a.loadOp, a.storeOp, Load, Store, initialLayout, finalLayout)
  }

  /** The caller's description read back from a native one. */
  function FromVk(d: AttachmentDescription): RenderPassAttachmentDesc {
    RenderPassAttachmentDesc(d.format, d.loadOp, d.storeOp, d.samples)
  }

  /** `to_vk` loses nothing of the caller's description: format, samples,
      load and store are copied. */
  lemma ToVkRoundTrip(a: RenderPassAttachmentDesc, initialLayout: ImageLayout, finalLayout: ImageLayout)
    ensures FromVk(ToVk(a, initialLayout, finalLayout)) == a
  {
  }

  /** The layout every attachment description starts and ends in. */
  const ATTACHMENT_LAYOUT: ImageLayout := ColorAttachmentOptimal

  function AttachmentDescriptions(desc: RenderPassDesc): seq<AttachmentDescription> {
    seq(|desc.colorAttachments|, i requires 0 <= i < |desc.colorAttachments| =>
      ToVk(desc.colorAttachments[i], ATTACHMENT_LAYOUT, ATTACHMENT_LAYOUT))
    + match desc.depthAttachment
      case None => []
      case Some(d) => [ToVk(d, ATTACHMENT_LAYOUT, ATTACHMENT_LAYOUT)]
  }

  /** `create_render_pass`: the colour attachments followed by the optional
      depth attachment, and one graphics subpass whose colour references are
      `0 .. N-1` and whose depth-stencil reference, present only with a depth
      attachment, is `N` (`N` cast to `u32`, as the source does). */
  function CreateRenderPass(desc: RenderPassDesc): (r: RenderPassInfo)
    ensures |r.attachments| == |desc.colorAttachments| + (if desc.depthAttachment.Some? then 1 else 0)
    ensures forall i | 0 <= i < |desc.colorAttachments| ::
      r.attachments[i] == ToVk(desc.colorAttachments[i], ColorAttachmentOptimal, ColorAttachmentOptimal)
    ensures desc.depthAttachment.Some? ==>
      r.attachments[|desc.colorAttachments|] == ToVk(desc.depthAttachment.value, ColorAttachmentOptimal, ColorAttachmentOptimal)
    ensures forall i | 0 <= i < |r.attachments| ::
      r.attachments[i].initialLayout == ColorAttachmentOptimal && r.attachments[i].finalLayout == ColorAttachmentOptimal
    ensures |r.subpasses| == 1 && r.subpasses[0].bindPoint == Graphics
    ensures |r.subpasses[0].colorAttachments| == AsU32(|desc.colorAttachments|)
    ensures forall i | 0 <= i < |r.subpasses[0].colorAttachments| ::
      r.subpasses[0].colorAttachments[i] == AttachmentReference(i, ColorAttachmentOptimal)
    ensures r.subpasses[0].depthStencilAttachment.Some? <==> desc.depthAttachment.Some?
    ensures desc.depthAttachment.Some? ==>
      r.subpasses[0].depthStencilAttachment.value
        == AttachmentReference(AsU32(|desc.colorAttachments|), DepthAttachmentStencilReadOnlyOptimal)
  {
    var attachments := AttachmentDescriptions(desc);
    var colorCount := AsU32(|desc.colorAttachments|);
    var colorRefs := seq(colorCount, (i: nat) => AttachmentReference(i, ColorAttachmentOptimal));
    var depthRef := AttachmentReference(colorCount, DepthAttachmentStencilReadOnlyOptimal);
    var subpass := SubpassDescription(Graphics, colorRefs, if desc.depthAttachment.Some? then Some(depthRef) else None);
    RenderPassInfo(attachments, [subpass])
  }

  /** With fewer than 2^32 colour attachments every reference of the subpass
      names an existing attachment: colour reference `i` names the
      attachment built from colour attachment `i`, and the depth-stencil
      reference names the one built from the depth attachment. */
  lemma ReferencesResolve(desc: RenderPassDesc)
    requires |desc.colorAttachments| < U32_MODULUS
    ensures var r := CreateRenderPass(desc);
      && |r.subpasses[0].colorAttachments| == |desc.colorAttachments|
      && (forall i | 0 <= i < |desc.colorAttachments| ::
            var k := r.subpasses[0].colorAttachments[i].attachment;
            k < |r.attachments| && FromVk(r.attachments[k]) == desc.colorAttachments[i])
      && (desc.depthAttachment.Some? ==>
            var k := r.subpasses[0].depthStencilAttachment.value.attachment;
            k < |r.attachments| && FromVk(r.attachments[k]) == desc.depthAttachment.value)
  {
  }

  /** One cleared colour attachment and a default depth attachment compile to
      two attachments, colour reference 0 and depth-stencil reference 1. */
  lemma ClearedColorWithDepth(color: Format, depth: Format)
    ensures var r := CreateRenderPass(RenderPassDesc([ClearInput(NewAttachment(color))], Some(NewAttachment(depth))));
      && |r.attachments| == 2
      && r.attachments[0].loadOp == Clear && r.attachments[0].storeOp == Store
      && r.attachments[1].loadOp == Load && r.attachments[1].storeOp == Store
      && r.subpasses[0].colorAttachments == [AttachmentReference(0, ColorAttachmentOptimal)]
      && r.subpasses[0].depthStencilAttachment == Some(AttachmentReference(1, DepthAttachmentStencilReadOnlyOptimal))
  {
  }
}
