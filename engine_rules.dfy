/**
 * The decisions ShaderOpTest makes between device calls, as functions of
 * the shader op: how a resource is initialised and sized, which root view
 * a resource is bound as, the copy-back row pitch, the vertex stride and
 * count, and which heaps are set on the command list.
 */
module EngineRules {
  import opened Wrappers
  import opened Text
  import opened D3D12
  import opened Lookups
  import opened ByteInit
  import opened ShaderOpData

  // ---------------------------------------------------------------------
  // Resource creation

  /** The Init attribute of a resource, compared ignoring case. */
  datatype InitKind = NoInit | ByName | Zero | FromBytes

  function InitKindOf(init: Option<string>): (k: InitKind)
    ensures k == ByName <==> init.Some? && CaseEq("byname", init.value)
    ensures k == Zero <==> init.Some? && CaseEq("zero", init.value)
    ensures k == FromBytes <==> init.Some? && CaseEq("frombytes", init.value)
  {
    if init.Some? && CaseEq("byname", init.value) then ByName
    else if init.Some? && CaseEq("zero", init.value) then Zero
    else if init.Some? && CaseEq("frombytes", init.value) then FromBytes
    else NoInit
  }

  lemma InitKindSpellings()
    ensures InitKindOf(Some("ByName")) == ByName && InitKindOf(Some("ZERO")) == Zero
    ensures InitKindOf(Some("FromBytes")) == FromBytes
    ensures InitKindOf(None) == NoInit && InitKindOf(Some("bytes")) == NoInit
  {
    assert CaseEq("byname", "ByName") by {
      assert Lower('B') == 'b' && Lower('N') == 'n';
    }
    assert CaseEq("zero", "ZERO") by {
      assert Lower('Z') == 'z' && Lower('E') == 'e' && Lower('R') == 'r' && Lower('O') == 'o';
    }
    assert CaseEq("frombytes", "FromBytes") by {
      assert Lower('F') == 'f' && Lower('B') == 'b';
    }
  }

  /**
   * The byte size of a resource as a linear buffer: its Width for a buffer,
   * and Width·Height·(format size) otherwise, which fails for a format
   * without a size.  It sizes the initial values, the upload buffer and
   * the readback buffer.
   */
  function LinearSize(desc: ResourceDesc): (r: Result<nat>)
    ensures desc.dimension == RESOURCE_DIMENSION_BUFFER ==> r == Ok(desc.width)
    ensures desc.dimension != RESOURCE_DIMENSION_BUFFER ==>
      (r.Ok? <==> GetByteSizeForFormat(desc.format).Ok?) &&
      (r.Ok? ==> r.value == desc.width * desc.height * GetByteSizeForFormat(desc.format).value)
    ensures r.Err? ==> r.error == InvalidArg
  {
    if desc.dimension == RESOURCE_DIMENSION_BUFFER then Ok(desc.width)
    else
      var size :- GetByteSizeForFormat(desc.format);
      Ok(desc.width * desc.height * size)
  }

  function ZeroBytes(n: nat): (z: seq<byte>)
    ensures |z| == n && forall i :: 0 <= i < n ==> z[i] == 0
  {
    seq(n, _ => 0)
  }

  /** m_InitCallbackFn: given the resource name and a zeroed vector, the values to upload. */
  type InitCallback = (Option<string>, seq<byte>) -> seq<byte>

  /** The values to upload and the Width the resource is created with. */
  datatype Prepared = Prepared(values: seq<byte>, width: nat)

  /**
   * The initialisation of one resource with an Init attribute: the values
   * vector is sized, filled, and the Width back-filled from it.
   */
  function PrepareInit(r: Resource, kind: InitKind, callback: InitCallback): (p: Result<Prepared>)
    requires kind != NoInit
    ensures p.Ok? <==> LinearSize(r.desc).Ok?
  {
    var size :- LinearSize(r.desc);
    var isBuffer := r.desc.dimension == RESOURCE_DIMENSION_BUFFER;
    match kind
    case Zero => Ok(Prepared(ZeroBytes(size), r.desc.width))
    case ByName =>
      var values := callback(r.name, ZeroBytes(size));
      Ok(Prepared(values, if isBuffer then |values| else r.desc.width))
    case FromBytes =>
      var values := r.initBytes;
      if r.desc.width != 0 then Ok(Prepared(values, r.desc.width))
      else if isBuffer then Ok(Prepared(values, |values|))
      else if r.desc.dimension == RESOURCE_DIMENSION_TEXTURE1D then
        Ok(Prepared(values, |values| / GetByteSizeForFormat(r.desc.format).value))
      else Ok(Prepared(values, 0))
  }

  /** A zero-initialised resource uploads LinearSize zero bytes and keeps its Width. */
  lemma PrepareZero(r: Resource, callback: InitCallback)
    requires LinearSize(r.desc).Ok?
    ensures PrepareInit(r, Zero, callback) == Ok(Prepared(ZeroBytes(LinearSize(r.desc).value), r.desc.width))
  {
  }

  /** A by-name buffer takes the size of what the callback returns as its Width; a texture keeps its Width. */
  lemma PrepareByName(r: Resource, callback: InitCallback)
    requires LinearSize(r.desc).Ok?
    ensures var values := callback(r.name, ZeroBytes(LinearSize(r.desc).value));
      PrepareInit(r, ByName, callback).value.values == values &&
      PrepareInit(r, ByName, callback).value.width ==
        if r.desc.dimension == RESOURCE_DIMENSION_BUFFER then |values| else r.desc.width
  {
  }

  /**
   * A frombytes resource uploads its InitBytes; with Width 0 a buffer takes
   * the byte count as Width and a 1D texture the number of texels they
   * hold; a given Width is kept.
   */
  lemma PrepareFromBytes(r: Resource, callback: InitCallback)
    requires LinearSize(r.desc).Ok?
    ensures PrepareInit(r, FromBytes, callback).value.values == r.initBytes
    ensures r.desc.width != 0 ==> PrepareInit(r, FromBytes, callback).value.width == r.desc.width
    ensures r.desc.width == 0 && r.desc.dimension == RESOURCE_DIMENSION_BUFFER ==>
      PrepareInit(r, FromBytes, callback).value.width == |r.initBytes|
    ensures r.desc.width == 0 && r.desc.dimension == RESOURCE_DIMENSION_TEXTURE1D ==>
      PrepareInit(r, FromBytes, callback).value.width == |r.initBytes| / GetByteSizeForFormat(r.desc.format).value
  {
  }

  /** A texture whose format has no size cannot be initialised. */
  lemma PrepareUnsizedTexture(r: Resource, kind: InitKind, callback: InitCallback)
    requires kind != NoInit
    requires r.desc.dimension != RESOURCE_DIMENSION_BUFFER && GetByteSizeForFormat(r.desc.format).Err?
    ensures PrepareInit(r, kind, callback) == Err(InvalidArg)
  {
  }

  // ---------------------------------------------------------------------
  // Root values

  /** The root parameter a root value is bound to: its Index, or its position when Index is 0. */
  function RootSlot(index: nat, position: nat): (slot: nat)
    ensures index != 0 ==> slot == index
    ensures index == 0 ==> slot == position
  {
    if index == 0 then position else index
  }

  /** With no explicit indices, root values take slots 0, 1, 2, … in order. */
  lemma RootSlotsByPosition(values: seq<RootValue>)
    requires forall i :: 0 <= i < |values| ==> values[i].index == 0
    ensures forall i :: 0 <= i < |values| ==> RootSlot(values[i].index, i) == i
  {
  }

  datatype RootViewKind = CbvRoot | UavRoot | SrvRoot

  /** The root view a resource is bound as, from the state it was transitioned to. */
  function RootViewKindOf(transitionTo: nat): (k: RootViewKind)
    ensures k == CbvRoot <==> transitionTo == RESOURCE_STATE_VERTEX_AND_CONSTANT_BUFFER
    ensures k == UavRoot <==> transitionTo == RESOURCE_STATE_UNORDERED_ACCESS
  {
    if transitionTo == RESOURCE_STATE_VERTEX_AND_CONSTANT_BUFFER then CbvRoot
    else if transitionTo == RESOURCE_STATE_UNORDERED_ACCESS then UavRoot
    else SrvRoot
  }

  /** Every other state, including none at all and combinations of flags, binds a shader resource view. */
  lemma RootViewKindOthers(transitionTo: nat)
    requires transitionTo != RESOURCE_STATE_VERTEX_AND_CONSTANT_BUFFER && transitionTo != RESOURCE_STATE_UNORDERED_ACCESS
    ensures RootViewKindOf(transitionTo) == SrvRoot
  {
  }

  // ---------------------------------------------------------------------
  // Copy-back

  /**
   * The row pitch of a texture's readback copy, in UINT arithmetic: Width·4
   * truncated to 32 bits and rounded up to the next multiple of
   * D3D12_TEXTURE_DATA_PITCH_ALIGNMENT, the addition wrapping too.
   */
  function RowPitch(width: nat): (p: nat)
    ensures p < UINT_LIMIT
  {
    var pitch := (width * 4) % UINT_LIMIT;
    if pitch % TEXTURE_DATA_PITCH_ALIGNMENT != 0 then
      (pitch + (TEXTURE_DATA_PITCH_ALIGNMENT - pitch % TEXTURE_DATA_PITCH_ALIGNMENT)) % UINT_LIMIT
    else pitch
  }

  /**
   * While rounding Width·4 up stays within a UINT, the row pitch is the
   * least multiple of 256 that holds a row.
   */
  lemma RowPitchAligned(width: nat)
    requires width * 4 <= UINT_LIMIT - TEXTURE_DATA_PITCH_ALIGNMENT
    ensures RowPitch(width) % TEXTURE_DATA_PITCH_ALIGNMENT == 0
    ensures width * 4 <= RowPitch(width) < width * 4 + TEXTURE_DATA_PITCH_ALIGNMENT
  {
    var pitch := width * 4;
    assert pitch % UINT_LIMIT == pitch;
    if pitch % 256 != 0 {
      var up := pitch + (256 - pitch % 256);
      assert up == (pitch / 256 + 1) * 256;
      assert up % UINT_LIMIT == up;
    }
  }

  /** Example: a row of 100 texels needs 400 bytes, padded to 512. */
  lemma RowPitchExample()
    ensures RowPitch(100) == 512 && RowPitch(64) == 256
  {
  }

  /**
   * The UINT arithmetic wraps: Width 2^30 makes Width·4 wrap to 0, and
   * Width 2^30 - 1 rounds 2^32 - 4 up to 2^32, which wraps to 0 too.
   */
  lemma RowPitchWraps()
    ensures RowPitch(0x4000_0000) == 0
    ensures RowPitch(0x3FFF_FFFF) == 0
  {
  }

  // ---------------------------------------------------------------------
  // The graphics draw

  /** The vertex stride: the sum of the input elements' format sizes, as a UINT. */
  function VertexStride(elements: seq<InputElement>): (r: Result<nat>)
    ensures r.Ok? ==> r.value < UINT_LIMIT
    ensures r.Ok? <==> forall i :: 0 <= i < |elements| ==> GetByteSizeForFormat(elements[i].format).Ok?
    ensures r.Err? ==> r.error == InvalidArg
  {
    if elements == [] then Ok(0)
    else
      var size :- GetByteSizeForFormat(elements[0].format);
      var rest :- VertexStride(elements[1..]);
      Ok((size + rest) % UINT_LIMIT)
  }

  /** The sum of the format sizes, without any truncation. */
  function StrideSum(elements: seq<InputElement>): nat
    requires forall i :: 0 <= i < |elements| ==> GetByteSizeForFormat(elements[i].format).Ok?
  {
    if elements == [] then 0
    else GetByteSizeForFormat(elements[0].format).value + StrideSum(elements[1..])
  }

  /** The stride is the sum of the format sizes, modulo 2^32. */
  lemma {:induction false} VertexStrideSum(elements: seq<InputElement>)
    requires forall i :: 0 <= i < |elements| ==> GetByteSizeForFormat(elements[i].format).Ok?
    ensures VertexStride(elements) == Ok(StrideSum(elements) % UINT_LIMIT)
  {
    if elements != [] {
      assert forall i :: 0 <= i < |elements[1..]| ==> elements[1..][i] == elements[i + 1];
      VertexStrideSum(elements[1..]);
      var size := GetByteSizeForFormat(elements[0].format).value;
      var rest := StrideSum(elements[1..]);
      AddMod(size, rest);
    }
  }

  /** Adding an element at the end adds its size to the sum. */
  lemma {:induction false} StrideSumSnoc(elements: seq<InputElement>, x: InputElement)
    requires forall i :: 0 <= i < |elements| ==> GetByteSizeForFormat(elements[i].format).Ok?
    requires GetByteSizeForFormat(x.format).Ok?
    ensures forall i :: 0 <= i < |elements + [x]| ==> GetByteSizeForFormat((elements + [x])[i].format).Ok?
    ensures StrideSum(elements + [x]) == StrideSum(elements) + GetByteSizeForFormat(x.format).value
  {
    if elements == [] {
      assert [x][1..] == [];
    } else {
      assert (elements + [x])[1..] == elements[1..] + [x];
      StrideSumSnoc(elements[1..], x);
    }
  }

  lemma AddMod(a: nat, b: nat)
    ensures (a + b % UINT_LIMIT) % UINT_LIMIT == (a + b) % UINT_LIMIT
  {
    var q := b / UINT_LIMIT;
    var r := b % UINT_LIMIT;
    assert b == q * UINT_LIMIT + r;
    assert a + b == (a + r) + q * UINT_LIMIT;
    ShiftMod(a + r, q);
  }

  lemma {:induction false} ShiftMod(x: nat, q: nat)
    ensures (x + q * UINT_LIMIT) % UINT_LIMIT == x % UINT_LIMIT
  {
    if q > 0 {
      ShiftMod(x, q - 1);
      assert x + q * UINT_LIMIT == (x + (q - 1) * UINT_LIMIT) + UINT_LIMIT;
    }
  }

  /** A float4 position and a float4 color make a 32-byte vertex. */
  lemma VertexStrideExample()
    ensures VertexStride([InputElement(2), InputElement(2)]) == Ok(32)
  {
  }

  /**
   * The vertex count of the draw: the vertex buffer's Width, truncated to a
   * UINT, divided by the stride; a zero stride divides by zero.
   */
  function VertexCount(bufferWidth: nat, stride: nat): (r: Result<nat>)
    ensures r.Ok? <==> stride != 0
    ensures r.Err? ==> r.error == DivideByZero
    ensures r.Ok? ==> r.value * stride <= bufferWidth % UINT_LIMIT < (r.value + 1) * stride
  {
    if stride == 0 then Err(DivideByZero) else Ok((bufferWidth % UINT_LIMIT) / stride)
  }

  // ---------------------------------------------------------------------
  // Descriptor heaps on the command list

  /** The SHADER_VISIBLE bit of a heap's flags. */
  predicate ShaderVisible(flags: nat)
  {
    flags % 2 == 1
  }

  /** 0, 1, …, n - 1: the created heaps by position. */
  function Positions(n: nat): (s: seq<nat>)
    ensures |s| == n && forall i :: 0 <= i < n ==> s[i] == i
  {
    seq(n, i => i)
  }

  /** Every heap of `heaps` is one of the first n. */
  predicate PositionsBelow(heaps: seq<nat>, n: nat)
  {
    forall i :: 0 <= i < |heaps| ==> heaps[i] < n
  }

  /** The heaps SetDescriptorHeaps passes on: the shader-visible ones, in order. */
  function VisibleHeaps(heaps: seq<nat>, flags: seq<nat>): (r: seq<nat>)
    requires PositionsBelow(heaps, |flags|)
    ensures |r| <= |heaps|
    ensures forall i :: 0 <= i < |r| ==> r[i] in heaps && ShaderVisible(flags[r[i]])
    ensures forall i :: 0 <= i < |heaps| && ShaderVisible(flags[heaps[i]]) ==> heaps[i] in r
  {
    if heaps == [] then []
    else if ShaderVisible(flags[heaps[0]]) then [heaps[0]] + VisibleHeaps(heaps[1..], flags)
    else VisibleHeaps(heaps[1..], flags)
  }

  /** The filter keeps the order of the heaps it keeps. */
  lemma {:induction false} VisibleHeapsAppend(a: seq<nat>, b: seq<nat>, flags: seq<nat>)
    requires PositionsBelow(a, |flags|)
    requires PositionsBelow(b, |flags|)
    ensures forall i :: 0 <= i < |a + b| ==> (a + b)[i] < |flags|
    ensures VisibleHeaps(a + b, flags) == VisibleHeaps(a, flags) + VisibleHeaps(b, flags)
  {
    if a != [] {
      assert (a + b)[1..] == a[1..] + b;
      VisibleHeapsAppend(a[1..], b, flags);
    } else {
      assert a + b == b;
    }
  }
}
