/**
 * The kinds of the parser's enumeration tables and the names each table
 * spells, in table order, together with the two facts the lookup needs of
 * the tables other than the DXGI format table: no name has a lower-case
 * letter, and no name occurs twice in its table.  The character-level
 * facts are established a few names at a time.
 */
module EnumNames {
  import opened Text
  import FormatTable

  /** ParserEnumKind: which enumeration an attribute holds. */
  datatype EnumKind =
    | InputClassification
    | DxgiFormat
    | HeapType
    | CpuPageProperty
    | MemoryPool
    | ResourceDimension
    | TextureLayout
    | ResourceFlag
    | HeapFlag
    | ResourceState
    | DescriptorHeapType
    | DescriptorHeapFlag
    | UavDimension

  /**
   * The names of the table of kind `k`, in table order; the DXGI format
   * names are kept in FormatTable.
   */
  function Names(k: EnumKind): (r: seq<string>)
  {
    match k
    case DxgiFormat => FormatTable.NamesFrom(0)
    case InputClassification =>
      [ "INSTANCE",
        "VERTEX" ]
    case HeapType =>
      [ "DEFAULT",
        "UPLOAD",
        "READBACK",
        "CUSTOM" ]
    case CpuPageProperty =>
      [ "UNKNOWN",
        "NOT_AVAILABLE",
        "WRITE_COMBINE",
        "WRITE_BACK" ]
    // The L0 entry is spelled with a trailing space.
    case MemoryPool =>
      [ "UNKNOWN",
        "L0 ",
        "L1" ]
    case ResourceDimension =>
      [ "UNKNOWN",
        "BUFFER",
        "TEXTURE1D",
        "TEXTURE2D",
        "TEXTURE3D" ]
    case TextureLayout =>
      [ "UNKNOWN",
        "ROW_MAJOR",
        "UNDEFINED_SWIZZLE",
        "STANDARD_SWIZZLE" ]
    case ResourceFlag =>
      [ "NONE",
        "ALLOW_RENDER_TARGET",
        "ALLOW_DEPTH_STENCIL",
        "ALLOW_UNORDERED_ACCESS",
        "DENY_SHADER_RESOURCE",
        "ALLOW_CROSS_ADAPTER",
        "ALLOW_SIMULTANEOUS_ACCESS" ]
    case HeapFlag =>
      [ "NONE",
        "SHARED",
        "DENY_BUFFERS",
        "ALLOW_DISPLAY",
        "SHARED_CROSS_ADAPTER",
        "DENY_RT_DS_TEXTURES",
        "DENY_NON_RT_DS_TEXTURES",
        "ALLOW_ALL_BUFFERS_AND_TEXTURES",
        "ALLOW_ONLY_BUFFERS",
        "ALLOW_ONLY_NON_RT_DS_TEXTURES",
        "ALLOW_ONLY_RT_DS_TEXTURES" ]
    case ResourceState =>
      [ "COMMON",
        "VERTEX_AND_CONSTANT_BUFFER",
        "INDEX_BUFFER",
        "RENDER_TARGET",
        "UNORDERED_ACCESS",
        "DEPTH_WRITE",
        "DEPTH_READ",
        "NON_PIXEL_SHADER_RESOURCE",
        "PIXEL_SHADER_RESOURCE",
        "STREAM_OUT",
        "INDIRECT_ARGUMENT",
        "COPY_DEST",
        "COPY_SOURCE",
        "RESOLVE_DEST",
        "RESOLVE_SOURCE",
        "GENERIC_READ",
        "PRESENT",
        "PREDICATION" ]
    case DescriptorHeapType =>
      [ "CBV_SRV_UAV",
        "SAMPLER",
        "RTV",
        "DSV" ]
    case DescriptorHeapFlag =>
      [ "NONE",
        "SHADER_VISIBLE" ]
    case UavDimension =>
      [ "UNKNOWN",
        "BUFFER",
        "TEXTURE1D",
        "TEXTURE1DARRAY",
        "TEXTURE2D",
        "TEXTURE2DARRAY",
        "TEXTURE3D" ]
  }

  lemma InputClassificationNamesUpper()
    ensures forall i :: 0 <= i < 2 ==> UpperOnly(Names(InputClassification)[i])
  {
  }

  lemma InputClassificationNamesClean()
    ensures AllUpperOnly(Names(InputClassification)) && Distinct(Names(InputClassification))
  {
    InputClassificationNamesUpper();
  }

  lemma HeapTypeNamesUpper()
    ensures forall i :: 0 <= i < 4 ==> UpperOnly(Names(HeapType)[i])
  {
  }

  lemma HeapTypeNamesClean()
    ensures AllUpperOnly(Names(HeapType)) && Distinct(Names(HeapType))
  {
    HeapTypeNamesUpper();
  }

  lemma CpuPagePropertyNamesUpper()
    ensures forall i :: 0 <= i < 4 ==> UpperOnly(Names(CpuPageProperty)[i])
  {
  }

  lemma CpuPagePropertyNamesClean()
    ensures AllUpperOnly(Names(CpuPageProperty)) && Distinct(Names(CpuPageProperty))
  {
    CpuPagePropertyNamesUpper();
  }

  lemma MemoryPoolNamesUpper()
    ensures forall i :: 0 <= i < 3 ==> UpperOnly(Names(MemoryPool)[i])
  {
  }

  lemma MemoryPoolNamesClean()
    ensures AllUpperOnly(Names(MemoryPool)) && Distinct(Names(MemoryPool))
  {
    MemoryPoolNamesUpper();
  }

  lemma ResourceDimensionNamesUpper()
    ensures forall i :: 0 <= i < 5 ==> UpperOnly(Names(ResourceDimension)[i])
  {
  }

  lemma ResourceDimensionNamesClean()
    ensures AllUpperOnly(Names(ResourceDimension)) && Distinct(Names(ResourceDimension))
  {
    ResourceDimensionNamesUpper();
  }

  lemma TextureLayoutNamesUpper()
    ensures forall i :: 0 <= i < 4 ==> UpperOnly(Names(TextureLayout)[i])
  {
  }

  lemma TextureLayoutNamesClean()
    ensures AllUpperOnly(Names(TextureLayout)) && Distinct(Names(TextureLayout))
  {
    TextureLayoutNamesUpper();
  }

  lemma ResourceFlagNamesUpper0()
    ensures forall i :: 0 <= i < 5 ==> UpperOnly(Names(ResourceFlag)[i])
  {
  }

  lemma ResourceFlagNamesUpper1()
    ensures forall i :: 5 <= i < 7 ==> UpperOnly(Names(ResourceFlag)[i])
  {
  }

  lemma ResourceFlagNamesClean()
    ensures AllUpperOnly(Names(ResourceFlag)) && Distinct(Names(ResourceFlag))
  {
    ResourceFlagNamesUpper0(); ResourceFlagNamesUpper1();
  }

  lemma HeapFlagNamesUpper0()
    ensures forall i :: 0 <= i < 7 ==> UpperOnly(Names(HeapFlag)[i])
  {
  }

  lemma HeapFlagNamesUpper1()
    ensures forall i :: 7 <= i < 10 ==> UpperOnly(Names(HeapFlag)[i])
  {
  }

  lemma HeapFlagNamesUpper2()
    ensures forall i :: 10 <= i < 11 ==> UpperOnly(Names(HeapFlag)[i])
  {
  }

  lemma HeapFlagNamesClean()
    ensures AllUpperOnly(Names(HeapFlag)) && Distinct(Names(HeapFlag))
  {
    HeapFlagNamesUpper0(); HeapFlagNamesUpper1(); HeapFlagNamesUpper2();
  }

  lemma ResourceStateNamesUpper0()
    ensures forall i :: 0 <= i < 7 ==> UpperOnly(Names(ResourceState)[i])
  {
  }

  lemma ResourceStateNamesUpper1()
    ensures forall i :: 7 <= i < 13 ==> UpperOnly(Names(ResourceState)[i])
  {
  }

  lemma ResourceStateNamesUpper2()
    ensures forall i :: 13 <= i < 18 ==> UpperOnly(Names(ResourceState)[i])
  {
  }

  lemma ResourceStateNamesClean()
    ensures AllUpperOnly(Names(ResourceState)) && Distinct(Names(ResourceState))
  {
    ResourceStateNamesUpper0(); ResourceStateNamesUpper1(); ResourceStateNamesUpper2();
  }

  lemma DescriptorHeapTypeNamesUpper()
    ensures forall i :: 0 <= i < 4 ==> UpperOnly(Names(DescriptorHeapType)[i])
  {
  }

  lemma DescriptorHeapTypeNamesClean()
    ensures AllUpperOnly(Names(DescriptorHeapType)) && Distinct(Names(DescriptorHeapType))
  {
    DescriptorHeapTypeNamesUpper();
  }

  lemma DescriptorHeapFlagNamesUpper()
    ensures forall i :: 0 <= i < 2 ==> UpperOnly(Names(DescriptorHeapFlag)[i])
  {
  }

  lemma DescriptorHeapFlagNamesClean()
    ensures AllUpperOnly(Names(DescriptorHeapFlag)) && Distinct(Names(DescriptorHeapFlag))
  {
    DescriptorHeapFlagNamesUpper();
  }

  lemma UavDimensionNamesUpper()
    ensures forall i :: 0 <= i < 7 ==> UpperOnly(Names(UavDimension)[i])
  {
  }

  lemma UavDimensionNamesClean()
    ensures AllUpperOnly(Names(UavDimension)) && Distinct(Names(UavDimension))
  {
    UavDimensionNamesUpper();
  }
}
