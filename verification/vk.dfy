/** The slice of the Vulkan API (as exposed by the `ash` bindings) that the
    layout logic produces or consumes. Enumerations become datatypes; bit-flag
    types become `bv32` values with the Vulkan bit constants. */
module Vk {

  /** Descriptor kinds. `rspirv_reflect::DescriptorType` uses the same
      numbering as Vulkan, so one datatype serves both the reflected type and
      the native type. */
  datatype DescriptorType =
    | Sampler
    | CombinedImageSampler
    | SampledImage
    | StorageImage
    | UniformTexelBuffer
    | StorageTexelBuffer
    | UniformBuffer
    | StorageBuffer
    | UniformBufferDynamic
    | StorageBufferDynamic
    | InputAttachment
    | AccelerationStructure

  datatype Filter = Nearest | Linear

  datatype SamplerMipmapMode = MipmapNearest | MipmapLinear

  datatype SamplerAddressMode = Repeat | MirroredRepeat | ClampToEdge | ClampToBorder

  datatype AttachmentLoadOp = Load | Clear | LoadDontCare

  datatype AttachmentStoreOp = Store | StoreDontCare

  datatype ImageLayout =
    | Undefined
    | General
    | ColorAttachmentOptimal
    | DepthStencilAttachmentOptimal
    | DepthStencilReadOnlyOptimal
    | DepthAttachmentStencilReadOnlyOptimal
    | ShaderReadOnlyOptimal
    | PresentSrc

  datatype PipelineBindPoint = Graphics | Compute

  /** An image format is carried through unchanged; its value is opaque here. */
  datatype Format = Format(code: nat)

  type ShaderStageFlags = bv32

  const VERTEX: ShaderStageFlags := 0x01
  const FRAGMENT: ShaderStageFlags := 0x10
  const COMPUTE: ShaderStageFlags := 0x20
  const ALL_GRAPHICS: ShaderStageFlags := 0x1F

  /** `vk::SampleCountFlags`: a bit mask the caller may set freely. */
  type SampleCountFlags = bv32

  const SAMPLE_COUNT_1: SampleCountFlags := 0x01

  type DescriptorSetLayoutCreateFlags = bv32

  /** The `Default` value of a flag set: no bits. */
  const NO_FLAGS: DescriptorSetLayoutCreateFlags := 0

  /** Rust's `as u32` cast of an unsigned integer: keeps the low 32 bits. */
  const U32_MODULUS: nat := 0x1_0000_0000

  function AsU32(n: nat): (r: nat)
    ensures r < U32_MODULUS
    ensures (n - r) % U32_MODULUS == 0
    ensures n < U32_MODULUS ==> r == n
  {
    n % U32_MODULUS
  }
}
