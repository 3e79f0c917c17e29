/**
 * The description a shader op is parsed into: resources, descriptor heaps,
 * shaders and root values.  Enumeration-valued fields hold the D3D12 / DXGI
 * value; names are the interned strings, or None for a null pointer.
 */
module ShaderOpData {
  import opened Wrappers
  import opened ByteInit

  datatype HeapProperties = HeapProperties(
    heapType: nat, cpuPageProperty: nat, memoryPoolPreference: nat,
    creationNodeMask: nat, visibleNodeMask: nat)

  /** D3D12_RESOURCE_DESC; the sample count and quality are its SampleDesc. */
  datatype ResourceDesc = ResourceDesc(
    dimension: nat, alignment: nat, width: nat, height: nat,
    depthOrArraySize: nat, mipLevels: nat, format: nat,
    sampleCount: nat, sampleQuality: nat, layout: nat, flags: nat)

  /** ShaderOpResource. */
  datatype Resource = Resource(
    name: Option<string>, init: Option<string>, readBack: bool,
    heapProperties: HeapProperties, desc: ResourceDesc, heapFlags: nat,
    initialResourceState: nat, transitionTo: nat, initBytes: seq<byte>)

  /** The member of the D3D12_UNORDERED_ACCESS_VIEW_DESC union that the view dimension selects. */
  datatype UavView =
    | BufferView(firstElement: nat, numElements: nat, structureByteStride: nat, counterOffsetInBytes: nat, raw: bool)
    | Texture1DView(mipSlice: nat)
    | Texture1DArrayView(mipSlice: nat, firstArraySlice: nat, arraySize: nat)
    | Texture2DView(mipSlice: nat, planeSlice: nat)
    | Texture2DArrayView(mipSlice: nat, firstArraySlice: nat, arraySize: nat, planeSlice: nat)
    | Texture3DView(mipSlice: nat, firstWSlice: nat, wSize: nat)
    | NoView

  datatype UavDesc = UavDesc(format: nat, viewDimension: nat, view: UavView)

  /** ShaderOpDescriptor. */
  datatype Descriptor = Descriptor(
    name: Option<string>, resName: Option<string>, counterName: Option<string>,
    kind: Option<string>, uavDesc: UavDesc)

  /** ShaderOpDescriptorHeap: the D3D12_DESCRIPTOR_HEAP_DESC fields and the descriptors. */
  datatype DescriptorHeap = DescriptorHeap(
    name: Option<string>, flags: nat, nodeMask: nat, numDescriptors: nat,
    heapType: nat, descriptors: seq<Descriptor>)

  /** ShaderOpShader. */
  datatype Shader = Shader(
    name: Option<string>, entryPoint: Option<string>, target: Option<string>, text: Option<string>)

  /** ShaderOpRootValue: a resource bound as a root view, or a heap bound as a table. */
  datatype RootValue = RootValue(resName: Option<string>, heapName: Option<string>, index: nat)

  /** The part of an input element the engine uses. */
  datatype InputElement = InputElement(format: nat)

  /** ShaderOp, with the members the engine reads. */
  datatype ShaderOp = ShaderOp(
    name: Option<string>, rootSignature: Option<string>,
    resources: seq<Resource>, descriptorHeaps: seq<DescriptorHeap>,
    rootValues: seq<RootValue>, renderTargets: seq<string>,
    inputElements: seq<InputElement>, shaders: seq<Shader>,
    dispatchX: nat, dispatchY: nat, dispatchZ: nat)
}
