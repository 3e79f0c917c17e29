/**
 * The D3D12 and DXGI enumeration values the shader-op code names directly,
 * as the public d3d12.h and dxgiformat.h headers define them.  The tables of
 * module EnumTables map the spelled names to the same values.
 */
module D3D12 {
  const FORMAT_UNKNOWN: nat := 0
  const FORMAT_R8G8B8A8_UNORM: nat := 28
  const FORMAT_R32_TYPELESS: nat := 39
  const FORMAT_R32_FLOAT: nat := 41
  const FORMAT_D32_FLOAT_S8X24_UINT: nat := 20
  const FORMAT_R1_UNORM: nat := 66

  const INPUT_CLASSIFICATION_PER_VERTEX_DATA: nat := 0

  const HEAP_TYPE_DEFAULT: nat := 1
  const CPU_PAGE_PROPERTY_UNKNOWN: nat := 0
  const MEMORY_POOL_UNKNOWN: nat := 0

  const RESOURCE_DIMENSION_BUFFER: nat := 1
  const RESOURCE_DIMENSION_TEXTURE1D: nat := 2
  const RESOURCE_DIMENSION_TEXTURE2D: nat := 3

  const TEXTURE_LAYOUT_UNKNOWN: nat := 0
  const TEXTURE_LAYOUT_ROW_MAJOR: nat := 1

  const RESOURCE_FLAG_NONE: nat := 0
  const HEAP_FLAG_NONE: nat := 0

  const RESOURCE_STATE_COMMON: nat := 0
  const RESOURCE_STATE_VERTEX_AND_CONSTANT_BUFFER: nat := 0x1
  const RESOURCE_STATE_RENDER_TARGET: nat := 0x4
  const RESOURCE_STATE_UNORDERED_ACCESS: nat := 0x8
  const RESOURCE_STATE_COPY_SOURCE: nat := 0x800
  const RESOURCE_STATE_PRESENT: nat := 0

  const DESCRIPTOR_HEAP_TYPE_CBV_SRV_UAV: nat := 0
  const DESCRIPTOR_HEAP_TYPE_RTV: nat := 2
  const DESCRIPTOR_HEAP_FLAG_NONE: nat := 0
  const DESCRIPTOR_HEAP_FLAG_SHADER_VISIBLE: nat := 1

  const UAV_DIMENSION_BUFFER: nat := 1
  const UAV_DIMENSION_TEXTURE1D: nat := 2
  const UAV_DIMENSION_TEXTURE1DARRAY: nat := 3
  const UAV_DIMENSION_TEXTURE2D: nat := 4
  const UAV_DIMENSION_TEXTURE2DARRAY: nat := 5
  const UAV_DIMENSION_TEXTURE3D: nat := 8

  /** D3D12_TEXTURE_DATA_PITCH_ALIGNMENT. */
  const TEXTURE_DATA_PITCH_ALIGNMENT: nat := 256

  /** One past the largest UINT and UINT16. */
  const UINT_LIMIT: nat := 0x1_0000_0000
  const UINT16_LIMIT: nat := 0x1_0000
  const UINT64_LIMIT: nat := 0x1_0000_0000_0000_0000
}
