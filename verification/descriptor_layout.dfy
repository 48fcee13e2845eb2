/** `create_descriptor_set_layouts`: turn a reflected (or merged) stage layout
    into one descriptor-set-layout description per set. The final
    `create_descriptor_set_layout` driver call is not modelled; the
    description handed to it is the result. */
module DescriptorLayout {
  import opened Wrappers
  import opened Vk
  import opened Reflection
  import opened SamplerName

  /** One `vk::DescriptorSetLayoutBinding`. The immutable sampler is the
      request given to the device's sampler cache, which stands for the
      handle that cache returns. */
  datatype LayoutBinding = LayoutBinding(
    binding: nat,
    descriptorType: DescriptorType,
    descriptorCount: nat,
    stageFlags: ShaderStageFlags,
    immutableSampler: Option<SamplerDesc>)

  /** The `vk::DescriptorSetLayoutCreateInfo` of one set: its creation flags
      and its bindings keyed by binding index. */
  datatype SetLayoutInfo = SetLayoutInfo(
    flags: DescriptorSetLayoutCreateFlags,
    bindings: map<nat, LayoutBinding>)

  /** One entry `(set_index, flags)` of the caller's sparse override list. */
  datatype SetFlagsOverride = SetFlagsOverride(setIndex: nat, flags: DescriptorSetLayoutCreateFlags)

  /** Why one binding cannot be synthesized: `unimplemented!` for a type with
      no rule, or a `panic!` on a malformed sampler name. */
  datatype BindingError =
    | UnsupportedDescriptor(ty: DescriptorType)
    | MalformedSamplerName(name: string, reason: SamplerNameError)

  /** A binding error located at its (set, binding) slot. */
  datatype SynthError = SynthError(setIndex: nat, binding: nat, error: BindingError)

  /** The reflected types that have a mapping rule. */
  predicate Supported(ty: DescriptorType) {
    ty in {UniformBuffer, StorageImage, StorageBuffer, SampledImage, Sampler}
  }

  /** Native descriptor type for a reflected one: uniform buffers become
      dynamic-offset uniform buffers, the other four supported kinds keep
      their kind, and everything else has no rule. */
  function NativeDescriptorType(ty: DescriptorType): (r: Option<DescriptorType>)
    ensures r.Some? <==> Supported(ty)
    ensures ty == UniformBuffer ==> r == Some(UniformBufferDynamic)
    ensures Supported(ty) && ty != UniformBuffer ==> r == Some(ty)
  {
    match ty
    case UniformBuffer => Some(UniformBufferDynamic)
    case StorageImage => Some(StorageImage)
    case StorageBuffer => Some(StorageBuffer)
    case SampledImage => Some(SampledImage)
    case Sampler => Some(Sampler)
    case _ => None
  }

  /** Two different supported reflected types never map to the same native
      type, and no supported type maps to a plain uniform buffer. */
  lemma NativeDescriptorTypeInjective(a: DescriptorType, b: DescriptorType)
    requires Supported(a) && Supported(b)
    ensures NativeDescriptorType(a) == NativeDescriptorType(b) ==> a == b
    ensures NativeDescriptorType(a) != Some(UniformBuffer)
  {
  }

  /** The binding description for reflected binding `info` at index `index`. */
  function SynthesizeBinding(index: nat, info: BindingInfo, stageFlags: ShaderStageFlags): (r: Result<LayoutBinding, BindingError>)
    ensures r.Success? <==> Supported(info.ty) && (info.ty == Sampler ==> DecodeSamplerName(info.name).Success?)
    ensures !Supported(info.ty) ==> r == Failure(UnsupportedDescriptor(info.ty))
    ensures info.ty == Sampler && DecodeSamplerName(info.name).Failure? ==>
      r == Failure(MalformedSamplerName(info.name, DecodeSamplerName(info.name).error))
    ensures r.Success? ==>
      && r.value.binding == index
      && r.value.descriptorCount == 1
      && r.value.stageFlags == stageFlags
      && Some(r.value.descriptorType) == NativeDescriptorType(info.ty)
      && (r.value.immutableSampler.Some? <==> info.ty == Sampler)
      && (info.ty == Sampler ==> info.name == SamplerNameOf(r.value.immutableSampler.value))
  {
    match NativeDescriptorType(info.ty)
    case None => Failure(UnsupportedDescriptor(info.ty))
    case Some(native) =>
      if info.ty == Sampler then
        match DecodeSamplerName(info.name)
        case Failure(reason) => Failure(MalformedSamplerName(info.name, reason))
        case Success(desc) => Success(LayoutBinding(index, native, 1, stageFlags, Some(desc)))
      else
        Success(LayoutBinding(index, native, 1, stageFlags, None))
  }

  /** The reflected array count plays no part: every binding gets count 1. */
  lemma SynthesisIgnoresCount(index: nat, info: BindingInfo, count: nat, stageFlags: ShaderStageFlags)
    ensures SynthesizeBinding(index, info.(count := count), stageFlags) == SynthesizeBinding(index, info, stageFlags)
  {
  }

  /** The index of the first override entry for `setIndex`. */
  predicate FirstOverrideAt(overrides: seq<SetFlagsOverride>, setIndex: nat, i: nat) {
    && i < |overrides|
    && overrides[i].setIndex == setIndex
    && forall j | 0 <= j < i :: overrides[j].setIndex != setIndex
  }

  /** The creation flags of set `setIndex`: those of the first override entry
      for that set, or no flags when the list has none. */
  function LookupSetFlags(overrides: seq<SetFlagsOverride>, setIndex: nat): (r: DescriptorSetLayoutCreateFlags)
    ensures (forall i | 0 <= i < |overrides| :: overrides[i].setIndex != setIndex) ==> r == NO_FLAGS
    ensures forall i: nat | FirstOverrideAt(overrides, setIndex, i) :: r == overrides[i].flags
  {
    if |overrides| == 0 then NO_FLAGS
    else if overrides[0].setIndex == setIndex then overrides[0].flags
    else
      var r := LookupSetFlags(overrides[1..], setIndex);
      assert forall i: nat | FirstOverrideAt(overrides, setIndex, i) :: FirstOverrideAt(overrides[1..], setIndex, i - 1);
      r
  }

  /** Every binding of one set can be synthesized. */
  predicate SetSynthesizable(bindings: SetReflection, stageFlags: ShaderStageFlags) {
    forall b | b in bindings :: SynthesizeBinding(b, bindings[b], stageFlags).Success?
  }

  /** Every binding of every set can be synthesized. */
  predicate Synthesizable(sets: StageLayout, stageFlags: ShaderStageFlags) {
    forall s | s in sets :: SetSynthesizable(sets[s], stageFlags)
  }

  function SetBindings(bindings: SetReflection, stageFlags: ShaderStageFlags): map<nat, LayoutBinding>
    requires SetSynthesizable(bindings, stageFlags)
  {
    map b | b in bindings :: SynthesizeBinding(b, bindings[b], stageFlags).value
  }

  /** The layout descriptions of a synthesizable stage layout, by set index. */
  function SetLayouts(sets: StageLayout, stageFlags: ShaderStageFlags, overrides: seq<SetFlagsOverride>): (r: map<nat, SetLayoutInfo>)
    requires Synthesizable(sets, stageFlags)
    ensures r.Keys == sets.Keys
  {
    map s | s in sets :: SetLayoutInfo(LookupSetFlags(overrides, s), SetBindings(sets[s], stageFlags))
  }

  /** The shape of synthesized layouts: one layout per set, one binding per
      reflected binding, each keeping its index, with count 1, the caller's
      stage flags, and an immutable sampler exactly on SAMPLER bindings. */
  lemma SetLayoutsShape(sets: StageLayout, stageFlags: ShaderStageFlags, overrides: seq<SetFlagsOverride>)
    requires Synthesizable(sets, stageFlags)
    ensures SetLayouts(sets, stageFlags, overrides).Keys == sets.Keys
    ensures forall s | s in sets ::
      && SetLayouts(sets, stageFlags, overrides)[s].bindings.Keys == sets[s].Keys
      && SetLayouts(sets, stageFlags, overrides)[s].flags == LookupSetFlags(overrides, s)
    ensures forall s, b | s in sets && b in sets[s] ::
      var lb := SetLayouts(sets, stageFlags, overrides)[s].bindings[b];
      && lb.binding == b
      && lb.descriptorCount == 1
      && lb.stageFlags == stageFlags
      && Some(lb.descriptorType) == NativeDescriptorType(sets[s][b].ty)
      && (lb.immutableSampler.Some? <==> sets[s][b].ty == Sampler)
  {
  }

  /** The inner loop of `create_descriptor_set_layouts`: synthesize every
      binding of set `setIndex`, stopping at the first that fails. */
  method CreateSetLayout(setIndex: nat, bindings: SetReflection, stageFlags: ShaderStageFlags, overrides: seq<SetFlagsOverride>)
    returns (r: Result<SetLayoutInfo, SynthError>)
    ensures r.Success? <==> SetSynthesizable(bindings, stageFlags)
    ensures r.Success? ==> r.value == SetLayoutInfo(LookupSetFlags(overrides, setIndex), SetBindings(bindings, stageFlags))
    ensures r.Failure? ==>
      && r.error.setIndex == setIndex
      && r.error.binding in bindings
      && SynthesizeBinding(r.error.binding, bindings[r.error.binding], stageFlags) == Failure(r.error.error)
  {
    var built: map<nat, LayoutBinding> := map[];
    var todo := bindings.Keys;
    while todo != {}
      invariant todo <= bindings.Keys
      invariant built.Keys == bindings.Keys - todo
      invariant forall b | b in built :: SynthesizeBinding(b, bindings[b], stageFlags) == Success(built[b])
      decreases todo
    {
      var b :| b in todo;
      var lb := SynthesizeBinding(b, bindings[b], stageFlags);
      if lb.Failure? {
        return Failure(SynthError(setIndex, b, lb.error));
      }
      built := built[b := lb.value];
      todo := todo - {b};
    }
    assert SetSynthesizable(bindings, stageFlags);
    assert built == SetBindings(bindings, stageFlags);
    var flags := LookupSetFlags(overrides, setIndex);
    return Success(SetLayoutInfo(flags, built));
  }

  /** The `Vec` the source collects: the layouts in `HashMap` iteration
      order, given here as `order` (each set index once). */
  function SetLayoutsInIterationOrder(layouts: map<nat, SetLayoutInfo>, order: seq<nat>): (r: seq<SetLayoutInfo>)
    requires multiset(order) == multiset(layouts.Keys)
    ensures |r| == |layouts|
    ensures forall i | 0 <= i < |order| :: order[i] in layouts && r[i] == layouts[order[i]]
  {
    assert |multiset(order)| == |order|;
    assert forall i | 0 <= i < |order| :: order[i] in multiset(layouts.Keys);
    seq(|order|, i requires 0 <= i < |order| => layouts[order[i]])
  }

  /** Visiting `s` next keeps `order` a listing of the keys visited so far. */
  lemma VisitStep(order: seq<nat>, keys: set<nat>, todo: set<nat>, s: nat)
    requires todo <= keys && s in todo
    requires multiset(order) == multiset(keys - todo)
    ensures multiset(order + [s]) == multiset(keys - (todo - {s}))
  {
  }

  /** Layouts built set by set in the visiting order are the reference
      layouts listed in that order. */
  lemma VisitedLayouts(sets: StageLayout, stageFlags: ShaderStageFlags, overrides: seq<SetFlagsOverride>,
                       order: seq<nat>, layouts: seq<SetLayoutInfo>)
    requires Synthesizable(sets, stageFlags)
    requires multiset(order) == multiset(sets.Keys)
    requires |layouts| == |order|
    requires forall i | 0 <= i < |order| :: order[i] in sets
    requires forall i | 0 <= i < |order| ::
      layouts[i] == SetLayoutInfo(LookupSetFlags(overrides, order[i]), SetBindings(sets[order[i]], stageFlags))
    ensures layouts == SetLayoutsInIterationOrder(SetLayouts(sets, stageFlags, overrides), order)
  {
  }

  /** `create_descriptor_set_layouts`: one layout description per set of the
      reflected layout, failing at a binding no rule covers. The source walks
      a `HashMap`, so the order of the sets, and which failing binding is
      reported first, are unspecified; `order` is the order the sets were
      visited in, and the result lists the layouts in that order. */
  method CreateDescriptorSetLayouts(sets: StageLayout, stageFlags: ShaderStageFlags, overrides: seq<SetFlagsOverride>)
    returns (r: Result<seq<SetLayoutInfo>, SynthError>, order: seq<nat>)
    ensures r.Success? <==> Synthesizable(sets, stageFlags)
    ensures r.Success? ==> multiset(order) == multiset(sets.Keys)
    ensures r.Success? ==> r.value == SetLayoutsInIterationOrder(SetLayouts(sets, stageFlags, overrides), order)
    ensures r.Failure? ==>
      && HasSlot(sets, r.error.setIndex, r.error.binding)
      && SynthesizeBinding(r.error.binding, sets[r.error.setIndex][r.error.binding], stageFlags) == Failure(r.error.error)
  {
    var layouts: seq<SetLayoutInfo> := [];
    order := [];
    var todo := sets.Keys;
    while todo != {}
      invariant todo <= sets.Keys
      invariant multiset(order) == multiset(sets.Keys - todo)
      invariant |layouts| == |order|
      invariant forall s | s in sets && s !in todo :: SetSynthesizable(sets[s], stageFlags)
      invariant forall i | 0 <= i < |order| :: order[i] in sets && SetSynthesizable(sets[order[i]], stageFlags)
      invariant forall i | 0 <= i < |order| ::
        layouts[i] == SetLayoutInfo(LookupSetFlags(overrides, order[i]), SetBindings(sets[order[i]], stageFlags))
      decreases todo
    {
      var s :| s in todo;
      var layout := CreateSetLayout(s, sets[s], stageFlags, overrides);
      if layout.Failure? {
        return Failure(layout.error), order;
      }
      VisitStep(order, sets.Keys, todo, s);
      layouts := layouts + [layout.value];
      order := order + [s];
      todo := todo - {s};
    }
    assert Synthesizable(sets, stageFlags);
    VisitedLayouts(sets, stageFlags, overrides, order, layouts);
    return Success(layouts), order;
  }
}
