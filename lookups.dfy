/** The format-size switch and the shader-target test. */
module Lookups {
  import opened Wrappers
  import opened D3D12

  /**
   * GetByteSizeForFormat as written: the switch lists DXGI formats 1 to 66
   * and returns 16, 12, 8, 4, 2 or 1 byte per element; every other format is
   * E_INVALIDARG.  The three formats 20 to 22 get 4 bytes.
   */
  function GetByteSizeForFormatAsWritten(format: nat): (r: Result<nat>)
    ensures r.Ok? <==> 1 <= format <= 66
    ensures r.Err? ==> r.error == InvalidArg
  {
    if 1 <= format <= 4 then Ok(16)
    else if 5 <= format <= 8 then Ok(12)
    else if 9 <= format <= 19 then Ok(8)
    else if 20 <= format <= 47 then Ok(4)
    else if 48 <= format <= 59 then Ok(2)
    else if 60 <= format <= 66 then Ok(1)
    else Err(InvalidArg)
  }

  /**
   * GetByteSizeForFormat with DXGI_FORMAT_D32_FLOAT_S8X24_UINT,
   * _R32_FLOAT_X8X24_TYPELESS and _X32_TYPELESS_G8X24_UINT at 8 bytes, the
   * size of the 64-bit layout they share with R32G8X24_TYPELESS.
   */
  function GetByteSizeForFormat(format: nat): (r: Result<nat>)
    ensures r.Ok? <==> 1 <= format <= 66
    ensures r.Err? ==> r.error == InvalidArg
    ensures r.Ok? ==> r.value in {1, 2, 4, 8, 12, 16}
  {
    if 20 <= format <= 22 then Ok(8) else GetByteSizeForFormatAsWritten(format)
  }

  /**
   * The typeless format a listed format belongs to (dxgiformat.h groups
   * every typed format after its typeless parent).  A format and its parent
   * share one memory layout.
   */
  function TypelessParent(format: nat): (p: nat)
    requires 1 <= format <= 66
    ensures 1 <= p <= format
  {
    if format <= 4 then 1
    else if format <= 8 then 5
    else if format <= 14 then 9
    else if format <= 18 then 15
    else if format <= 22 then 19
    else if format <= 25 then 23
    else if format <= 26 then 26
    else if format <= 32 then 27
    else if format <= 38 then 33
    else if format <= 43 then 39
    else if format <= 47 then 44
    else if format <= 52 then 48
    else if format <= 59 then 53
    else if format <= 64 then 60
    else format
  }

  /** Every listed format has the size of its typeless parent. */
  lemma ByteSizeFollowsParent(format: nat)
    requires 1 <= format <= 66
    ensures GetByteSizeForFormat(format) == GetByteSizeForFormat(TypelessParent(format))
  {
  }

  /** The switch as written breaks that rule for the R32G8X24 family. */
  lemma ByteSizeAsWrittenBreaksParent()
    ensures TypelessParent(FORMAT_D32_FLOAT_S8X24_UINT) == 19
    ensures GetByteSizeForFormatAsWritten(FORMAT_D32_FLOAT_S8X24_UINT) == Ok(4)
    ensures GetByteSizeForFormatAsWritten(19) == Ok(8)
  {
  }

  /** The two switches differ exactly on formats 20 to 22. */
  lemma ByteSizeAgreesOutsideX24(format: nat)
    ensures GetByteSizeForFormatAsWritten(format) == GetByteSizeForFormat(format) <==> !(20 <= format <= 22)
  {
  }

  /** The switch lists the formats from the widest to the narrowest. */
  lemma ByteSizeNonIncreasing(f: nat, g: nat)
    requires 1 <= f <= g <= 66
    ensures GetByteSizeForFormat(g).value <= GetByteSizeForFormat(f).value
  {
  }

  /** TargetUsesDxil: a target such as "cs_6_0" names shader model 6 or later. */
  predicate TargetUsesDxil(target: string): (b: bool)
    ensures b ==> |target| > 3
    ensures |target| > 3 && '6' <= target[3] <= '9' ==> b
    ensures |target| > 3 && '0' <= target[3] <= '5' ==> !b
  {
    |target| > 3 && target[3] >= '6'
  }

  /**
   * For the usual two-letter stage targets "xs_M_m" the test is exactly
   * "major version at least 6".
   */
  lemma TargetUsesDxilStage(stage: string, major: char, minor: char)
    requires |stage| == 2 && '0' <= major <= '9'
    ensures TargetUsesDxil(stage + "_" + [major] + "_" + [minor]) <==> major >= '6'
  {
    var t := stage + "_" + [major] + "_" + [minor];
    assert t[3] == major;
  }

  /**
   * A three-letter stage such as "lib_6_3" puts '_' at position 3, which
   * sorts after '6', so every such target counts as DXIL.
   */
  lemma TargetUsesDxilLongStage(stage: string, rest: string)
    requires |stage| == 3
    ensures TargetUsesDxil(stage + "_" + rest)
  {
    var t := stage + "_" + rest;
    assert t[3] == '_';
  }

  /** A target of at most three characters never counts as DXIL. */
  lemma TargetUsesDxilShort(target: string)
    requires |target| <= 3
    ensures !TargetUsesDxil(target)
  {
  }
}
