/**
 * ShaderOpParser's rules for Resource, Descriptor, DescriptorHeap and
 * Shader elements, over the attributes of the element, and
 * ShaderOpSet::GetShaderOp.
 */
module Parser {
  import opened Wrappers
  import opened Text
  import opened D3D12
  import opened EnumNames
  import opened EnumTables
  import opened Attributes
  import opened ByteInit
  import opened ShaderOpData

  // ---------------------------------------------------------------------
  // Resource

  /** D3D12_HEAP_PROPERTIES: three enumerations and two 32-bit node masks that default to 0. */
  function ReadHeapProperties(attrs: Attrs): (r: Result<HeapProperties>)
    ensures r.Ok? <==>
      ReadAttrEnum(attrs, "HeapType", HeapType).Ok? && ReadAttrEnum(attrs, "CPUPageProperty", CpuPageProperty).Ok? &&
      ReadAttrEnum(attrs, "MemoryPoolPreference", MemoryPool).Ok? &&
      ReadAttrUInt(attrs, "CreationNodeMask", 0).Ok? && ReadAttrUInt(attrs, "VisibleNodeMask", 0).Ok?
    ensures r.Ok? ==>
      r.value.heapType == ReadAttrEnum(attrs, "HeapType", HeapType).value.value &&
      r.value.cpuPageProperty == ReadAttrEnum(attrs, "CPUPageProperty", CpuPageProperty).value.value &&
      r.value.memoryPoolPreference == ReadAttrEnum(attrs, "MemoryPoolPreference", MemoryPool).value.value
    ensures r.Ok? ==> r.value.creationNodeMask < UINT_LIMIT && r.value.visibleNodeMask < UINT_LIMIT
    ensures r.Ok? && "CreationNodeMask" !in attrs ==> r.value.creationNodeMask == 0
    ensures r.Ok? && "VisibleNodeMask" !in attrs ==> r.value.visibleNodeMask == 0
    ensures ReadAttrEnum(attrs, "HeapType", HeapType).Err? ==> r == Err(ReadAttrEnum(attrs, "HeapType", HeapType).error)
  {
    var heapType :- ReadAttrEnum(attrs, "HeapType", HeapType);
    var page :- ReadAttrEnum(attrs, "CPUPageProperty", CpuPageProperty);
    var pool :- ReadAttrEnum(attrs, "MemoryPoolPreference", MemoryPool);
    var creation :- ReadAttrUInt(attrs, "CreationNodeMask", 0);
    var visible :- ReadAttrUInt(attrs, "VisibleNodeMask", 0);
    Ok(HeapProperties(heapType.value, page.value, pool.value, creation, visible))
  }

  /** The D3D12_RESOURCE_DESC attributes, in the order ParseResource reads them. */
  function ReadResourceDesc(attrs: Attrs): (r: Result<ResourceDesc>)
    ensures r.Ok? <==>
      ReadAttrEnum(attrs, "Dimension", ResourceDimension).Ok? &&
      ReadAttrUInt64(attrs, "Alignment", 0).Ok? && ReadAttrUInt64(attrs, "Width", 0).Ok? &&
      ReadAttrUInt(attrs, "Height", 0).Ok? &&
      ReadAttrUInt16(attrs, "DepthOrArraySize", 0).Ok? && ReadAttrUInt16(attrs, "MipLevels", 0).Ok? &&
      ReadAttrEnum(attrs, "Format", DxgiFormat).Ok? &&
      ReadAttrUInt(attrs, "SampleCount", 0).Ok? && ReadAttrUInt(attrs, "SampleQual", 0).Ok? &&
      ReadAttrEnum(attrs, "Layout", TextureLayout).Ok? && ReadAttrEnum(attrs, "Flags", ResourceFlag).Ok?
    ensures r.Ok? ==>
      r.value.dimension == ReadAttrEnum(attrs, "Dimension", ResourceDimension).value.value &&
      r.value.format == ReadAttrEnum(attrs, "Format", DxgiFormat).value.value &&
      r.value.layout == ReadAttrEnum(attrs, "Layout", TextureLayout).value.value &&
      r.value.flags == ReadAttrEnum(attrs, "Flags", ResourceFlag).value.value
    ensures r.Ok? ==>
      r.value.alignment < UINT64_LIMIT && r.value.width < UINT64_LIMIT && r.value.height < UINT_LIMIT &&
      r.value.depthOrArraySize < UINT16_LIMIT && r.value.mipLevels < UINT16_LIMIT &&
      r.value.sampleCount < UINT_LIMIT && r.value.sampleQuality < UINT_LIMIT
    ensures r.Ok? && "Width" !in attrs ==> r.value.width == 0
    ensures ReadAttrEnum(attrs, "Dimension", ResourceDimension).Err? ==>
      r == Err(ReadAttrEnum(attrs, "Dimension", ResourceDimension).error)
  {
    var dimension :- ReadAttrEnum(attrs, "Dimension", ResourceDimension);
    var alignment :- ReadAttrUInt64(attrs, "Alignment", 0);
    var width :- ReadAttrUInt64(attrs, "Width", 0);
    var height :- ReadAttrUInt(attrs, "Height", 0);
    var depth :- ReadAttrUInt16(attrs, "DepthOrArraySize", 0);
    var mips :- ReadAttrUInt16(attrs, "MipLevels", 0);
    var format :- ReadAttrEnum(attrs, "Format", DxgiFormat);
    var count :- ReadAttrUInt(attrs, "SampleCount", 0);
    var quality :- ReadAttrUInt(attrs, "SampleQual", 0);
    var layout :- ReadAttrEnum(attrs, "Layout", TextureLayout);
    var flags :- ReadAttrEnum(attrs, "Flags", ResourceFlag);
    Ok(ResourceDesc(dimension.value, alignment, width, height, depth, mips, format.value,
                    count, quality, layout.value, flags.value))
  }

  /**
   * The fixed values ParseResource sets after reading: a buffer has one
   * row, one slice, one mip, no format, one sample and a row-major layout;
   * 1D and 2D textures get 1 for the counts left at 0.
   */
  function NormalizeDesc(d: ResourceDesc): (n: ResourceDesc)
    ensures n.dimension == d.dimension && n.alignment == d.alignment && n.width == d.width && n.flags == d.flags
    ensures d.dimension == RESOURCE_DIMENSION_BUFFER ==>
      n.height == 1 && n.depthOrArraySize == 1 && n.mipLevels == 1 && n.format == FORMAT_UNKNOWN &&
      n.sampleCount == 1 && n.sampleQuality == 0 && n.layout == TEXTURE_LAYOUT_ROW_MAJOR
    ensures d.dimension != RESOURCE_DIMENSION_BUFFER ==>
      n.mipLevels == d.mipLevels && n.format == d.format && n.sampleQuality == d.sampleQuality && n.layout == d.layout
  {
    if d.dimension == RESOURCE_DIMENSION_BUFFER then
      d.(height := 1, depthOrArraySize := 1, mipLevels := 1, format := FORMAT_UNKNOWN,
         sampleCount := 1, sampleQuality := 0, layout := TEXTURE_LAYOUT_ROW_MAJOR)
    else if d.dimension == RESOURCE_DIMENSION_TEXTURE1D then
      d.(height := if d.height == 0 then 1 else d.height,
         depthOrArraySize := if d.depthOrArraySize == 0 then 1 else d.depthOrArraySize,
         sampleCount := if d.sampleCount == 0 then 1 else d.sampleCount)
    else if d.dimension == RESOURCE_DIMENSION_TEXTURE2D then
      d.(depthOrArraySize := if d.depthOrArraySize == 0 then 1 else d.depthOrArraySize,
         sampleCount := if d.sampleCount == 0 then 1 else d.sampleCount)
    else d
  }

  /** Two buffers that agree on width, alignment and flags normalise alike, whatever else was parsed. */
  lemma NormalizeBufferFixed(d1: ResourceDesc, d2: ResourceDesc)
    requires d1.dimension == RESOURCE_DIMENSION_BUFFER && d2.dimension == RESOURCE_DIMENSION_BUFFER
    requires d1.width == d2.width && d1.alignment == d2.alignment && d1.flags == d2.flags
    ensures NormalizeDesc(d1) == NormalizeDesc(d2)
  {
  }

  /** After normalisation a 1D texture has no zero height, depth or sample count, and a 2D texture no zero depth or sample count. */
  lemma NormalizeTexturePositive(d: ResourceDesc)
    ensures d.dimension == RESOURCE_DIMENSION_TEXTURE1D ==>
      NormalizeDesc(d).height >= 1 && NormalizeDesc(d).depthOrArraySize >= 1 && NormalizeDesc(d).sampleCount >= 1
    ensures d.dimension == RESOURCE_DIMENSION_TEXTURE2D ==>
      NormalizeDesc(d).height == d.height && NormalizeDesc(d).depthOrArraySize >= 1 && NormalizeDesc(d).sampleCount >= 1
  {
  }

  /** A texture's non-zero counts are kept as parsed. */
  lemma NormalizeKeepsNonZero(d: ResourceDesc)
    requires d.dimension != RESOURCE_DIMENSION_BUFFER
    ensures d.height != 0 ==> NormalizeDesc(d).height == d.height
    ensures d.depthOrArraySize != 0 ==> NormalizeDesc(d).depthOrArraySize == d.depthOrArraySize
    ensures d.sampleCount != 0 ==> NormalizeDesc(d).sampleCount == d.sampleCount
  {
  }

  /** Other dimensions (unknown, 3D textures) are left as parsed. */
  lemma NormalizeOtherDimensions(d: ResourceDesc)
    requires d.dimension !in {RESOURCE_DIMENSION_BUFFER, RESOURCE_DIMENSION_TEXTURE1D, RESOURCE_DIMENSION_TEXTURE2D}
    ensures NormalizeDesc(d) == d
  {
  }

  /** Normalising twice changes nothing more. */
  lemma NormalizeIdempotent(d: ResourceDesc)
    ensures NormalizeDesc(NormalizeDesc(d)) == NormalizeDesc(d)
  {
  }

  /**
   * ParseResource: the attributes in source order, the fixed values, then
   * the bytes of the element's text nodes.
   */
  function ParseResource(attrs: Attrs, texts: seq<string>, encode: InitValue -> FloatBytes): (r: Result<Resource>)
    ensures r.Ok? ==> r.value.initBytes == InitBytesOfTexts(texts, encode)
    ensures r.Ok? ==> ReadResourceDesc(attrs).Ok? && r.value.desc == NormalizeDesc(ReadResourceDesc(attrs).value)
    ensures r.Ok? ==> r.value.name == ReadAttrStr(attrs, "Name") && r.value.init == ReadAttrStr(attrs, "Init")
    ensures r.Ok? ==> r.value.readBack == ReadAttrBool(attrs, "ReadBack", false)
    ensures ReadResourceDesc(attrs).Err? ==> r.Err?
    ensures r.Ok? <==>
      ReadHeapProperties(attrs).Ok? && ReadResourceDesc(attrs).Ok? &&
      ReadAttrEnum(attrs, "HeapFlags", HeapFlag).Ok? &&
      ReadAttrEnum(attrs, "InitialResourceState", ResourceState).Ok? &&
      ReadAttrEnum(attrs, "TransitionTo", ResourceState).Ok?
    ensures r.Ok? ==>
      r.value.heapProperties == ReadHeapProperties(attrs).value &&
      r.value.heapFlags == ReadAttrEnum(attrs, "HeapFlags", HeapFlag).value.value &&
      r.value.initialResourceState == ReadAttrEnum(attrs, "InitialResourceState", ResourceState).value.value &&
      r.value.transitionTo == ReadAttrEnum(attrs, "TransitionTo", ResourceState).value.value
    ensures ReadHeapProperties(attrs).Err? ==> r == Err(ReadHeapProperties(attrs).error)
    ensures ReadHeapProperties(attrs).Ok? && ReadResourceDesc(attrs).Err? ==> r == Err(ReadResourceDesc(attrs).error)
  {
    var name := ReadAttrStr(attrs, "Name");
    var init := ReadAttrStr(attrs, "Init");
    var readBack := ReadAttrBool(attrs, "ReadBack", false);
    var heapProperties :- ReadHeapProperties(attrs);
    var desc :- ReadResourceDesc(attrs);
    var heapFlags :- ReadAttrEnum(attrs, "HeapFlags", HeapFlag);
    var initial :- ReadAttrEnum(attrs, "InitialResourceState", ResourceState);
    var transitionTo :- ReadAttrEnum(attrs, "TransitionTo", ResourceState);
    Ok(Resource(name, init, readBack, heapProperties, NormalizeDesc(desc), heapFlags.value,
                initial.value, transitionTo.value, InitBytesOfTexts(texts, encode)))
  }

  // ---------------------------------------------------------------------
  // Descriptor

  /** A Flags attribute spelling RAW in any case makes a raw buffer view; an absent or empty one does not. */
  predicate RawFlag(flags: Option<string>)
  {
    flags.Some? && flags.value != [] && CaseEq(flags.value, "RAW")
  }

  lemma RawFlagSpellings()
    ensures RawFlag(Some("raw")) && RawFlag(Some("Raw")) && RawFlag(Some("RAW"))
    ensures !RawFlag(None) && !RawFlag(Some("")) && !RawFlag(Some("RAWX")) && !RawFlag(Some("NONE"))
  {
    assert Lower('r') == 'r' && Lower('R') == 'r' && Lower('a') == 'a' && Lower('A') == 'a';
    assert Lower('w') == 'w' && Lower('W') == 'w';
    assert Lower('N') != Lower('R');
  }

  /** The member of the view union that a view dimension selects (the switch of ParseDescriptor). */
  predicate ViewMatches(dimension: nat, view: UavView)
  {
    if dimension == UAV_DIMENSION_BUFFER then view.BufferView?
    else if dimension == UAV_DIMENSION_TEXTURE1D then view.Texture1DView?
    else if dimension == UAV_DIMENSION_TEXTURE1DARRAY then view.Texture1DArrayView?
    else if dimension == UAV_DIMENSION_TEXTURE2D then view.Texture2DView?
    else if dimension == UAV_DIMENSION_TEXTURE2DARRAY then view.Texture2DArrayView?
    else if dimension == UAV_DIMENSION_TEXTURE3D then view.Texture3DView?
    else view.NoView?
  }

  /**
   * The switch on the view dimension.  `planeAttr` names the attribute a
   * Texture2DArray view takes its plane slice from: ReadUavView passes
   * "PlaneSlice", ReadUavViewAsWritten the "MipSlice" that is written there.
   */
  function ReadUavViewWith(attrs: Attrs, dimension: nat, planeAttr: string): (r: Result<UavView>)
    ensures r.Ok? ==> ViewMatches(dimension, r.value)
    ensures r.Ok? && r.value.BufferView? ==> r.value.raw == RawFlag(ReadAttrStr(attrs, "Flags"))
    ensures r.Ok? && r.value.Texture2DArrayView? ==>
      ReadAttrUInt(attrs, planeAttr, 0) == Ok(r.value.planeSlice) &&
      ReadAttrUInt(attrs, "MipSlice", 0) == Ok(r.value.mipSlice)
  {
    if dimension == UAV_DIMENSION_BUFFER then
      var first :- ReadAttrUInt64(attrs, "FirstElement", 0);
      var num :- ReadAttrUInt(attrs, "NumElements", 0);
      var stride :- ReadAttrUInt(attrs, "StructureByteStride", 0);
      var counter :- ReadAttrUInt64(attrs, "CounterOffsetInBytes", 0);
      Ok(BufferView(first, num, stride, counter, RawFlag(ReadAttrStr(attrs, "Flags"))))
    else if dimension == UAV_DIMENSION_TEXTURE1D then
      var mip :- ReadAttrUInt(attrs, "MipSlice", 0);
      Ok(Texture1DView(mip))
    else if dimension == UAV_DIMENSION_TEXTURE1DARRAY then
      var mip :- ReadAttrUInt(attrs, "MipSlice", 0);
      var first :- ReadAttrUInt(attrs, "FirstArraySlice", 0);
      var size :- ReadAttrUInt(attrs, "ArraySize", 0);
      Ok(Texture1DArrayView(mip, first, size))
    else if dimension == UAV_DIMENSION_TEXTURE2D then
      var mip :- ReadAttrUInt(attrs, "MipSlice", 0);
      var plane :- ReadAttrUInt(attrs, "PlaneSlice", 0);
      Ok(Texture2DView(mip, plane))
    else if dimension == UAV_DIMENSION_TEXTURE2DARRAY then
      var mip :- ReadAttrUInt(attrs, "MipSlice", 0);
      var first :- ReadAttrUInt(attrs, "FirstArraySlice", 0);
      var size :- ReadAttrUInt(attrs, "ArraySize", 0);
      var plane :- ReadAttrUInt(attrs, planeAttr, 0);
      Ok(Texture2DArrayView(mip, first, size, plane))
    else if dimension == UAV_DIMENSION_TEXTURE3D then
      var mip :- ReadAttrUInt(attrs, "MipSlice", 0);
      var first :- ReadAttrUInt(attrs, "FirstWSlice", 0);
      var size :- ReadAttrUInt(attrs, "WSize", 0);
      Ok(Texture3DView(mip, first, size))
    else
      Ok(NoView)
  }

  /** The union member as the source reads it: a Texture2DArray plane slice from "MipSlice". */
  function ReadUavViewAsWritten(attrs: Attrs, dimension: nat): (r: Result<UavView>)
    ensures r.Ok? && r.value.Texture2DArrayView? ==> r.value.planeSlice == r.value.mipSlice
  {
    ReadUavViewWith(attrs, dimension, "MipSlice")
  }

  /** The union member with its plane slice read from "PlaneSlice", as for a Texture2D view. */
  function ReadUavView(attrs: Attrs, dimension: nat): (r: Result<UavView>)
    ensures r.Ok? && r.value.Texture2DArrayView? ==> ReadAttrUInt(attrs, "PlaneSlice", 0) == Ok(r.value.planeSlice)
  {
    ReadUavViewWith(attrs, dimension, "PlaneSlice")
  }

  /**
   * The plane-slice discrepancy: with MipSlice="1" and PlaneSlice="0" a
   * Texture2DArray view gets plane slice 1 as written, and 0 when it reads
   * its own attribute.
   */
  lemma PlaneSliceDiscrepancy()
    ensures ReadUavViewAsWritten(map["MipSlice" := "1", "PlaneSlice" := "0"], UAV_DIMENSION_TEXTURE2DARRAY)
            == Ok(Texture2DArrayView(1, 0, 0, 1))
    ensures ReadUavView(map["MipSlice" := "1", "PlaneSlice" := "0"], UAV_DIMENSION_TEXTURE2DARRAY)
            == Ok(Texture2DArrayView(1, 0, 0, 0))
  {
    var attrs := map["MipSlice" := "1", "PlaneSlice" := "0"];
    PlaneSliceReadings(attrs);
    Texture2DArrayRead(attrs, "MipSlice", 1, 0, 0, 1);
    Texture2DArrayRead(attrs, "PlaneSlice", 1, 0, 0, 0);
  }

  /** The readings of the attributes in the discrepancy's example. */
  lemma PlaneSliceReadings(attrs: Attrs)
    requires attrs == map["MipSlice" := "1", "PlaneSlice" := "0"]
    ensures ReadAttrUInt(attrs, "MipSlice", 0) == Ok(1) && ReadAttrUInt(attrs, "PlaneSlice", 0) == Ok(0)
    ensures ReadAttrUInt(attrs, "FirstArraySlice", 0) == Ok(0) && ReadAttrUInt(attrs, "ArraySize", 0) == Ok(0)
  {
    assert DecimalString(1) == "1" && DecimalString(0) == "0";
    ReadAttrUIntDecimal(attrs, "MipSlice", 1);
    ReadAttrUIntDecimal(attrs, "PlaneSlice", 0);
    assert "FirstArraySlice" !in attrs && "ArraySize" !in attrs;
  }

  /** A Texture2DArray view is made of the four readings. */
  lemma Texture2DArrayRead(attrs: Attrs, planeAttr: string, mip: nat, first: nat, size: nat, plane: nat)
    requires ReadAttrUInt(attrs, "MipSlice", 0) == Ok(mip)
    requires ReadAttrUInt(attrs, "FirstArraySlice", 0) == Ok(first)
    requires ReadAttrUInt(attrs, "ArraySize", 0) == Ok(size)
    requires ReadAttrUInt(attrs, planeAttr, 0) == Ok(plane)
    ensures ReadUavViewWith(attrs, UAV_DIMENSION_TEXTURE2DARRAY, planeAttr) == Ok(Texture2DArrayView(mip, first, size, plane))
  {
  }

  /**
   * The view format: a raw buffer view whose Format attribute is absent is
   * R32_TYPELESS; every other view keeps the format as read.
   */
  function UavFormat(format: EnumRead, view: UavView): (f: nat)
    ensures !format.present && view.BufferView? && view.raw ==> f == FORMAT_R32_TYPELESS
    ensures format.present || !view.BufferView? || !view.raw ==> f == format.value
  {
    if !format.present && view.BufferView? && view.raw then FORMAT_R32_TYPELESS else format.value
  }

  /** D3D12_UNORDERED_ACCESS_VIEW_DESC as ParseDescriptor reads it. */
  function ReadUavDescWith(attrs: Attrs, planeAttr: string): (r: Result<UavDesc>)
    ensures r.Ok? <==>
      ReadAttrEnum(attrs, "Format", DxgiFormat).Ok? && ReadAttrEnum(attrs, "Dimension", UavDimension).Ok? &&
      ReadUavViewWith(attrs, ReadAttrEnum(attrs, "Dimension", UavDimension).value.value, planeAttr).Ok?
    ensures r.Ok? ==>
      r.value.viewDimension == ReadAttrEnum(attrs, "Dimension", UavDimension).value.value &&
      ReadUavViewWith(attrs, r.value.viewDimension, planeAttr) == Ok(r.value.view) &&
      r.value.format == UavFormat(ReadAttrEnum(attrs, "Format", DxgiFormat).value, r.value.view)
    ensures ReadAttrEnum(attrs, "Format", DxgiFormat).Err? ==> r == Err(ReadAttrEnum(attrs, "Format", DxgiFormat).error)
  {
    var format :- ReadAttrEnum(attrs, "Format", DxgiFormat);
    var dimension :- ReadAttrEnum(attrs, "Dimension", UavDimension);
    var view :- ReadUavViewWith(attrs, dimension.value, planeAttr);
    Ok(UavDesc(UavFormat(format, view), dimension.value, view))
  }

  /** The four kinds a descriptor may have, in any case. */
  predicate KnownKind(kind: string)
  {
    CaseEq(kind, "UAV") || CaseEq(kind, "SRV") || CaseEq(kind, "CBV") || CaseEq(kind, "RTV")
  }

  lemma KindSpellings()
    ensures KnownKind("uav") && KnownKind("Srv") && KnownKind("CBV") && KnownKind("rtv")
  {
    assert Lower('u') == 'u' && Lower('a') == 'a' && Lower('v') == 'v' && Lower('U') == 'u' && Lower('A') == 'a';
    assert Lower('S') == 's' && Lower('r') == 'r' && Lower('V') == 'v' && Lower('R') == 'r';
    assert Lower('t') == 't' && Lower('T') == 't';
    CaseEqRefl("CBV");
  }

  lemma UnknownKinds()
    ensures !KnownKind("") && !KnownKind("DSV") && !KnownKind("UAVS")
  {
    var d := "DSV";
    assert Lower(d[0]) != Lower("UAV"[0]) && Lower(d[0]) != Lower("SRV"[0]);
    assert Lower(d[0]) != Lower("CBV"[0]) && Lower(d[0]) != Lower("RTV"[0]);
  }

  /**
   * The checks after the attributes: a missing Name or ResName is copied
   * from the other, and the Kind must be present and known.
   */
  function FinishDescriptor(d: Descriptor): (r: Result<Descriptor>)
    ensures r.Ok? <==> d.kind.Some? && KnownKind(d.kind.value)
    ensures r.Err? ==> r.error == InvalidArg
    ensures r.Ok? ==> r.value.counterName == d.counterName && r.value.kind == d.kind && r.value.uavDesc == d.uavDesc
    ensures r.Ok? ==> (r.value.name.Some? <==> r.value.resName.Some?)
    ensures r.Ok? ==> r.value.name == (if d.name.Some? then d.name else d.resName)
    ensures r.Ok? ==> r.value.resName == (if d.resName.Some? then d.resName else d.name)
  {
    var resName := if d.name.Some? && d.resName.None? then d.name else d.resName;
    var name := if resName.Some? && d.name.None? then resName else d.name;
    if d.kind.None? || !KnownKind(d.kind.value) then Err(InvalidArg)
    else Ok(d.(name := name, resName := resName))
  }

  /**
   * The Descriptor attributes: four strings, then the view description,
   * then the checks of FinishDescriptor; a view error comes before a Kind error.
   */
  function ParseDescriptorWith(attrs: Attrs, planeAttr: string): (r: Result<Descriptor>)
    ensures r.Ok? <==>
      ReadUavDescWith(attrs, planeAttr).Ok? && ReadAttrStr(attrs, "Kind").Some? && KnownKind(ReadAttrStr(attrs, "Kind").value)
    ensures r.Ok? ==>
      r.value.uavDesc == ReadUavDescWith(attrs, planeAttr).value &&
      r.value.kind == ReadAttrStr(attrs, "Kind") && r.value.counterName == ReadAttrStr(attrs, "CounterName")
    ensures r.Ok? ==>
      r.value.name == (if "Name" in attrs then ReadAttrStr(attrs, "Name") else ReadAttrStr(attrs, "ResName")) &&
      r.value.resName == (if "ResName" in attrs then ReadAttrStr(attrs, "ResName") else ReadAttrStr(attrs, "Name"))
    ensures ReadUavDescWith(attrs, planeAttr).Err? ==> r == Err(ReadUavDescWith(attrs, planeAttr).error)
    ensures ReadUavDescWith(attrs, planeAttr).Ok? && r.Err? ==> r.error == InvalidArg
  {
    var name := ReadAttrStr(attrs, "Name");
    var resName := ReadAttrStr(attrs, "ResName");
    var counterName := ReadAttrStr(attrs, "CounterName");
    var kind := ReadAttrStr(attrs, "Kind");
    var uavDesc :- ReadUavDescWith(attrs, planeAttr);
    FinishDescriptor(Descriptor(name, resName, counterName, kind, uavDesc))
  }

  /** ParseDescriptor as written. */
  function ParseDescriptorAsWritten(attrs: Attrs): (r: Result<Descriptor>)
    ensures r.Ok? ==> r.value.uavDesc.view.Texture2DArrayView? ==>
      r.value.uavDesc.view.planeSlice == r.value.uavDesc.view.mipSlice
  {
    ParseDescriptorWith(attrs, "MipSlice")
  }

  /** ParseDescriptor, with the Texture2DArray plane slice read from "PlaneSlice". */
  function ParseDescriptor(attrs: Attrs): (r: Result<Descriptor>)
    ensures r.Ok? ==> r.value.kind == ReadAttrStr(attrs, "Kind") && r.value.kind.Some? && KnownKind(r.value.kind.value)
    ensures r.Ok? ==> (r.value.name.Some? <==> r.value.resName.Some?)
    ensures ReadAttrStr(attrs, "Kind").None? ==> r.Err?
  {
    ParseDescriptorWith(attrs, "PlaneSlice")
  }

  // ---------------------------------------------------------------------
  // DescriptorHeap

  /** A child element of a DescriptorHeap: its local name and attributes. */
  datatype Element = Element(localName: string, attrs: Attrs)

  /** The child loop of ParseDescriptorHeap: every Descriptor element, in document order. */
  function ParseDescriptors(children: seq<Element>): (r: Result<seq<Descriptor>>)
    ensures r.Ok? ==> |r.value| <= |children|
    ensures r.Ok? ==> forall i :: 0 <= i < |r.value| ==> r.value[i].kind.Some? && KnownKind(r.value[i].kind.value)
  {
    if children == [] then Ok([])
    else if children[0].localName == "Descriptor" then
      var d :- ParseDescriptor(children[0].attrs);
      var rest :- ParseDescriptors(children[1..]);
      Ok([d] + rest)
    else ParseDescriptors(children[1..])
  }

  /** The attributes of the Descriptor children, in document order; other elements are skipped. */
  function DescriptorElements(children: seq<Element>): (ds: seq<Attrs>)
    ensures |ds| <= |children|
  {
    if children == [] then []
    else if children[0].localName == "Descriptor" then [children[0].attrs] + DescriptorElements(children[1..])
    else DescriptorElements(children[1..])
  }

  /** Every one of the given Descriptor elements parses. */
  predicate AllParse(ds: seq<Attrs>)
  {
    forall i :: 0 <= i < |ds| ==> ParseDescriptor(ds[i]).Ok?
  }

  /** Element i is the first of the given Descriptor elements that does not parse. */
  predicate FirstFailure(ds: seq<Attrs>, i: int)
  {
    0 <= i < |ds| && ParseDescriptor(ds[i]).Err? && forall j :: 0 <= j < i ==> ParseDescriptor(ds[j]).Ok?
  }

  lemma AllParseCons(a: Attrs, ds: seq<Attrs>)
    ensures AllParse([a] + ds) <==> ParseDescriptor(a).Ok? && AllParse(ds)
  {
    var s := [a] + ds;
    if ParseDescriptor(a).Ok? && AllParse(ds) {
      forall i | 0 <= i < |s| ensures ParseDescriptor(s[i]).Ok? {
        if i > 0 { assert s[i] == ds[i - 1]; }
      }
    }
    if AllParse(s) {
      assert s[0] == a;
      forall i | 0 <= i < |ds| ensures ParseDescriptor(ds[i]).Ok? {
        assert s[i + 1] == ds[i];
      }
    }
  }

  lemma FirstFailureCons(a: Attrs, ds: seq<Attrs>, k: int)
    requires ParseDescriptor(a).Ok? && FirstFailure(ds, k)
    ensures FirstFailure([a] + ds, k + 1) && ([a] + ds)[k + 1] == ds[k]
  {
    var s := [a] + ds;
    assert s[k + 1] == ds[k];
    forall j | 0 <= j < k + 1 ensures ParseDescriptor(s[j]).Ok? {
      if j > 0 { assert s[j] == ds[j - 1]; }
    }
  }

  /**
   * The child loop parses the Descriptor children in order: it succeeds
   * iff every one of them parses, giving their descriptors in order, and
   * otherwise fails with the error of the first one that does not.
   */
  lemma {:induction false} ParseDescriptorsInOrder(children: seq<Element>)
    ensures ParseDescriptors(children).Ok? <==> AllParse(DescriptorElements(children))
    ensures ParseDescriptors(children).Ok? ==>
      |ParseDescriptors(children).value| == |DescriptorElements(children)| &&
      forall i :: 0 <= i < |DescriptorElements(children)| ==>
        ParseDescriptor(DescriptorElements(children)[i]) == Ok(ParseDescriptors(children).value[i])
    ensures ParseDescriptors(children).Err? ==>
      exists i :: FirstFailure(DescriptorElements(children), i) &&
        ParseDescriptor(DescriptorElements(children)[i]).error == ParseDescriptors(children).error
  {
    if children != [] {
      var tail := children[1..];
      ParseDescriptorsInOrder(tail);
      var rt := ParseDescriptors(tail);
      var dt := DescriptorElements(tail);
      if children[0].localName == "Descriptor" {
        var a := children[0].attrs;
        var ds := DescriptorElements(children);
        assert ds == [a] + dt;
        AllParseCons(a, dt);
        var d := ParseDescriptor(a);
        if d.Err? {
          assert ParseDescriptors(children) == Err(d.error);
          assert FirstFailure(ds, 0) && ds[0] == a;
        } else if rt.Err? {
          assert ParseDescriptors(children) == Err(rt.error);
          var k :| FirstFailure(dt, k) && ParseDescriptor(dt[k]).error == rt.error;
          FirstFailureCons(a, dt, k);
        } else {
          var r := ParseDescriptors(children);
          assert r == Ok([d.value] + rt.value);
          forall i | 0 <= i < |ds| ensures ParseDescriptor(ds[i]) == Ok(r.value[i]) {
            if i > 0 { assert ds[i] == dt[i - 1] && r.value[i] == rt.value[i - 1]; }
          }
        }
      }
    }
  }

  /** When every child is a Descriptor, each one gives a descriptor, in order. */
  lemma {:induction false} AllDescriptors(children: seq<Element>)
    requires forall i :: 0 <= i < |children| ==> children[i].localName == "Descriptor"
    requires ParseDescriptors(children).Ok?
    ensures |ParseDescriptors(children).value| == |children|
    ensures forall i :: 0 <= i < |children| ==> ParseDescriptor(children[i].attrs) == Ok(ParseDescriptors(children).value[i])
  {
    if children != [] {
      AllDescriptors(children[1..]);
    }
  }

  /** The heap flags: an RTV heap without a Flags attribute is not shader-visible. */
  function HeapFlags(flags: EnumRead, heapType: nat): (f: nat)
    ensures heapType == DESCRIPTOR_HEAP_TYPE_RTV && !flags.present ==> f == DESCRIPTOR_HEAP_FLAG_NONE
    ensures heapType != DESCRIPTOR_HEAP_TYPE_RTV || flags.present ==> f == flags.value
  {
    if heapType == DESCRIPTOR_HEAP_TYPE_RTV && !flags.present then DESCRIPTOR_HEAP_FLAG_NONE else flags.value
  }

  /** The attributes of a DescriptorHeap element, read before its children; no descriptors yet. */
  function ReadHeapHeader(attrs: Attrs): (r: Result<DescriptorHeap>)
    ensures r.Ok? ==> r.value.descriptors == []
    ensures r.Ok? <==>
      ReadAttrEnum(attrs, "Flags", DescriptorHeapFlag).Ok? && ReadAttrUInt(attrs, "NodeMask", 0).Ok? &&
      ReadAttrUInt(attrs, "NumDescriptors", 0).Ok? && ReadAttrEnum(attrs, "Type", DescriptorHeapType).Ok?
    ensures r.Ok? ==>
      r.value.name == ReadAttrStr(attrs, "Name") &&
      r.value.heapType == ReadAttrEnum(attrs, "Type", DescriptorHeapType).value.value &&
      r.value.flags == HeapFlags(ReadAttrEnum(attrs, "Flags", DescriptorHeapFlag).value, r.value.heapType) &&
      r.value.nodeMask < UINT_LIMIT && r.value.numDescriptors < UINT_LIMIT
    ensures r.Ok? && "NumDescriptors" !in attrs ==> r.value.numDescriptors == 0
  {
    var name := ReadAttrStr(attrs, "Name");
    var flags :- ReadAttrEnum(attrs, "Flags", DescriptorHeapFlag);
    var nodeMask :- ReadAttrUInt(attrs, "NodeMask", 0);
    var numDescriptors :- ReadAttrUInt(attrs, "NumDescriptors", 0);
    var heapType :- ReadAttrEnum(attrs, "Type", DescriptorHeapType);
    Ok(DescriptorHeap(name, HeapFlags(flags, heapType.value), nodeMask, numDescriptors, heapType.value, []))
  }

  /** ParseDescriptorHeap: the heap's attributes, then its Descriptor children; a header error comes first. */
  function ParseDescriptorHeap(attrs: Attrs, children: seq<Element>): (r: Result<DescriptorHeap>)
    ensures r.Ok? <==> ReadHeapHeader(attrs).Ok? && ParseDescriptors(children).Ok?
    ensures r.Ok? ==>
      r.value.descriptors == ParseDescriptors(children).value && r.value.(descriptors := []) == ReadHeapHeader(attrs).value
    ensures ReadHeapHeader(attrs).Err? ==> r == Err(ReadHeapHeader(attrs).error)
    ensures ReadHeapHeader(attrs).Ok? && ParseDescriptors(children).Err? ==> r == Err(ParseDescriptors(children).error)
  {
    var header :- ReadHeapHeader(attrs);
    var descriptors :- ParseDescriptors(children);
    Ok(header.(descriptors := descriptors))
  }

  /** Without a Flags attribute, an RTV heap has no flags and any other heap is shader-visible. */
  lemma HeapFlagsDefault(attrs: Attrs, children: seq<Element>)
    requires "Flags" !in attrs
    requires ParseDescriptorHeap(attrs, children).Ok?
    ensures var h := ParseDescriptorHeap(attrs, children).value;
      h.flags == if h.heapType == DESCRIPTOR_HEAP_TYPE_RTV then DESCRIPTOR_HEAP_FLAG_NONE else DESCRIPTOR_HEAP_FLAG_SHADER_VISIBLE
  {
  }

  /** An explicit Flags attribute is kept, whatever the heap type. */
  lemma HeapFlagsExplicit(attrs: Attrs, children: seq<Element>)
    requires "Flags" in attrs
    requires ParseDescriptorHeap(attrs, children).Ok?
    ensures ReadAttrEnum(attrs, "Flags", DescriptorHeapFlag).Ok?
    ensures ParseDescriptorHeap(attrs, children).value.flags == ReadAttrEnum(attrs, "Flags", DescriptorHeapFlag).value.value
  {
  }

  // ---------------------------------------------------------------------
  // Shader

  /**
   * ParseShader, given the element's content (None for an empty element):
   * a shader has its text either as content or as a Text attribute, never
   * both, and its entry point is "main" unless one is given.
   */
  function ParseShader(attrs: Attrs, content: Option<string>): (r: Result<Shader>)
    ensures r.Err? <==> content.Some? && content.value != [] && "Text" in attrs && attrs["Text"] != []
    ensures r.Err? ==> r.error == InvalidArg
    ensures r.Ok? ==> r.value.name == ReadAttrStr(attrs, "Name") && r.value.target == ReadAttrStr(attrs, "Target")
  {
    var name := ReadAttrStr(attrs, "Name");
    var entryPoint := ReadAttrStr(attrs, "EntryPoint");
    var target := ReadAttrStr(attrs, "Target");
    var hasText := content.Some? && content.value != [];
    var attrText := ReadAttrStr(attrs, "Text");
    if hasText && attrText.Some? && attrText.value != [] then Err(InvalidArg)
    else
      var text := if hasText then content else attrText;
      Ok(Shader(name, if entryPoint.None? then Some("main") else entryPoint, target, text))
  }

  /** The text is the content when there is some, and otherwise the Text attribute. */
  lemma ShaderTextSource(attrs: Attrs, content: Option<string>)
    requires ParseShader(attrs, content).Ok?
    ensures content.Some? && content.value != [] ==> ParseShader(attrs, content).value.text == content
    ensures !(content.Some? && content.value != []) ==> ParseShader(attrs, content).value.text == ReadAttrStr(attrs, "Text")
  {
  }

  /** The entry point is the EntryPoint attribute, or "main" without one. */
  lemma ShaderEntryPoint(attrs: Attrs, content: Option<string>)
    requires ParseShader(attrs, content).Ok?
    ensures "EntryPoint" !in attrs ==> ParseShader(attrs, content).value.entryPoint == Some("main")
    ensures "EntryPoint" in attrs ==> ParseShader(attrs, content).value.entryPoint == Some(attrs["EntryPoint"])
  {
  }

  // ---------------------------------------------------------------------
  // ShaderOpSet

  predicate NamedAs(op: ShaderOp, name: string)
  {
    op.name.Some? && CaseEq(name, op.name.value)
  }

  /** ShaderOpSet::GetShaderOp: the position of the first op named `name`, ignoring case. */
  function GetShaderOp(ops: seq<ShaderOp>, name: string): (r: Option<nat>)
    ensures r.Some? ==> r.value < |ops| && NamedAs(ops[r.value], name)
    ensures r.Some? ==> forall i :: 0 <= i < r.value ==> !NamedAs(ops[i], name)
    ensures r.None? <==> forall i :: 0 <= i < |ops| ==> !NamedAs(ops[i], name)
  {
    if ops == [] then None
    else if NamedAs(ops[0], name) then Some(0)
    else match GetShaderOp(ops[1..], name)
      case Some(i) => Some(i + 1)
      case None => None
  }

  /** Names that agree ignoring case find the same op. */
  lemma {:induction false} GetShaderOpAnyCase(ops: seq<ShaderOp>, a: string, b: string)
    requires CaseEq(a, b)
    ensures GetShaderOp(ops, a) == GetShaderOp(ops, b)
  {
    if ops != [] {
      if ops[0].name.Some? {
        var n := ops[0].name.value;
        if CaseEq(a, n) {
          CaseEqSym(a, b);
          CaseEqTrans(b, a, n);
        } else if CaseEq(b, n) {
          CaseEqTrans(a, b, n);
        }
      }
      GetShaderOpAnyCase(ops[1..], a, b);
    }
  }
}
