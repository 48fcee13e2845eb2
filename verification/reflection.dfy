/** What shader reflection hands to the layout logic: for one stage, a map
    from descriptor-set index to a map from binding index to the reflected
    binding (`StageDescriptorSetLayout` in the source). */
module Reflection {
  import opened Vk

  /** `rspirv_reflect::DescriptorInfo`: type, name and array count. */
  datatype BindingInfo = BindingInfo(ty: DescriptorType, name: string, count: nat)

  type SetReflection = map<nat, BindingInfo>

  type StageLayout = map<nat, SetReflection>

  /** A (set, binding) slot is present in a stage layout. */
  predicate HasSlot(layout: StageLayout, setIndex: nat, binding: nat) {
    setIndex in layout && binding in layout[setIndex]
  }
}
