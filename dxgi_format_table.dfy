/**
 * DXGI_FORMAT_TABLE, the largest of the parser's enumeration tables: the
 * names of the 119 formats a shader-op description may use, in table order,
 * and the values they stand for.  The names are split into blocks of 15 so
 * that the facts the lookup needs (no lower-case letters, no repeated name)
 * can be established block by block.
 */
module FormatTable {
  import opened Text

  /** Block `b` of the table, fifteen names (the last block fourteen). */
  function Block(b: nat): (r: seq<string>)
    requires b < 8
    ensures |r| == if b < 7 then 15 else 14
  {
    match b
    case 0 =>
      [ "UNKNOWN",
        "R32G32B32A32_TYPELESS",
        "R32G32B32A32_FLOAT",
        "R32G32B32A32_UINT",
        "R32G32B32A32_SINT",
        "R32G32B32_TYPELESS",
        "R32G32B32_FLOAT",
        "R32G32B32_UINT",
        "R32G32B32_SINT",
        "R16G16B16A16_TYPELESS",
        "R16G16B16A16_FLOAT",
        "R16G16B16A16_UNORM",
        "R16G16B16A16_UINT",
        "R16G16B16A16_SNORM",
        "R16G16B16A16_SINT" ]
    case 1 =>
      [ "R32G32_TYPELESS",
        "R32G32_FLOAT",
        "R32G32_UINT",
        "R32G32_SINT",
        "R32G8X24_TYPELESS",
        "D32_FLOAT_S8X24_UINT",
        "R32_FLOAT_X8X24_TYPELESS",
        "X32_TYPELESS_G8X24_UINT",
        "R10G10B10A2_TYPELESS",
        "R10G10B10A2_UNORM",
        "R10G10B10A2_UINT",
        "R11G11B10_FLOAT",
        "R8G8B8A8_TYPELESS",
        "R8G8B8A8_UNORM",
        "R8G8B8A8_UNORM_SRGB" ]
    case 2 =>
      [ "R8G8B8A8_UINT",
        "R8G8B8A8_SNORM",
        "R8G8B8A8_SINT",
        "R16G16_TYPELESS",
        "R16G16_FLOAT",
        "R16G16_UNORM",
        "R16G16_UINT",
        "R16G16_SNORM",
        "R16G16_SINT",
        "R32_TYPELESS",
        "D32_FLOAT",
        "R32_FLOAT",
        "R32_UINT",
        "R32_SINT",
        "R24G8_TYPELESS" ]
    case 3 =>
      [ "D24_UNORM_S8_UINT",
        "R24_UNORM_X8_TYPELESS",
        "X24_TYPELESS_G8_UINT",
        "R8G8_TYPELESS",
        "R8G8_UNORM",
        "R8G8_UINT",
        "R8G8_SNORM",
        "R8G8_SINT",
        "R16_TYPELESS",
        "R16_FLOAT",
        "D16_UNORM",
        "R16_UNORM",
        "R16_UINT",
        "R16_SNORM",
        "R16_SINT" ]
    case 4 =>
      [ "R8_TYPELESS",
        "R8_UNORM",
        "R8_UINT",
        "R8_SNORM",
        "R8_SINT",
        "A8_UNORM",
        "R1_UNORM",
        "R9G9B9E5_SHAREDEXP",
        "R8G8_B8G8_UNORM",
        "G8R8_G8B8_UNORM",
        "BC1_TYPELESS",
        "BC1_UNORM",
        "BC1_UNORM_SRGB",
        "BC2_TYPELESS",
        "BC2_UNORM" ]
    case 5 =>
      [ "BC2_UNORM_SRGB",
        "BC3_TYPELESS",
        "BC3_UNORM",
        "BC3_UNORM_SRGB",
        "BC4_TYPELESS",
        "BC4_UNORM",
        "BC4_SNORM",
        "BC5_TYPELESS",
        "BC5_UNORM",
        "BC5_SNORM",
        "B5G6R5_UNORM",
        "B5G5R5A1_UNORM",
        "B8G8R8A8_UNORM",
        "B8G8R8X8_UNORM",
        "R10G10B10_XR_BIAS_A2_UNORM" ]
    case 6 =>
      [ "B8G8R8A8_TYPELESS",
        "B8G8R8A8_UNORM_SRGB",
        "B8G8R8X8_TYPELESS",
        "B8G8R8X8_UNORM_SRGB",
        "BC6H_TYPELESS",
        "BC6H_UF16",
        "BC6H_SF16",
        "BC7_TYPELESS",
        "BC7_UNORM",
        "BC7_UNORM_SRGB",
        "AYUV",
        "Y410",
        "Y416",
        "NV12",
        "P010" ]
    case 7 =>
      [ "P016",
        "420_OPAQUE",
        "YUY2",
        "Y210",
        "Y216",
        "NV11",
        "AI44",
        "IA44",
        "P8",
        "A8P8",
        "B4G4R4A4_UNORM",
        "P208",
        "V208",
        "V408" ]
  }

  /** The names of blocks `b` to 7, in table order; NamesFrom(0) is the whole table. */
  function NamesFrom(b: nat): (r: seq<string>)
    requires b <= 8
    ensures |r| == if b == 8 then 0 else 119 - 15 * b
    decreases 8 - b
  {
    if b == 8 then [] else Block(b) + NamesFrom(b + 1)
  }

  /**
   * The DXGI_FORMAT value beside each name.  The table lists the formats in
   * enumeration order, DXGI_FORMAT_UNKNOWN (0) to DXGI_FORMAT_B4G4R4A4_UNORM
   * (115), and ends with DXGI_FORMAT_P208, _V208 and _V408 (130 to 132).
   */
  function Values(): (r: seq<nat>)
    ensures |r| == 119
  {
    seq(116, i requires 0 <= i < 116 => i) + [130, 131, 132]
  }

  lemma Block0Upper0()
    ensures forall i :: 0 <= i < 4 ==> UpperOnly(Block(0)[i])
  {
  }

  lemma Block0Upper1()
    ensures forall i :: 4 <= i < 8 ==> UpperOnly(Block(0)[i])
  {
  }

  lemma Block0Upper2()
    ensures forall i :: 8 <= i < 12 ==> UpperOnly(Block(0)[i])
  {
  }

  lemma Block0Upper3()
    ensures forall i :: 12 <= i < 15 ==> UpperOnly(Block(0)[i])
  {
  }

  lemma Block1Upper0()
    ensures forall i :: 0 <= i < 4 ==> UpperOnly(Block(1)[i])
  {
  }

  lemma Block1Upper1()
    ensures forall i :: 4 <= i < 8 ==> UpperOnly(Block(1)[i])
  {
  }

  lemma Block1Upper2()
    ensures forall i :: 8 <= i < 12 ==> UpperOnly(Block(1)[i])
  {
  }

  lemma Block1Upper3()
    ensures forall i :: 12 <= i < 15 ==> UpperOnly(Block(1)[i])
  {
  }

  lemma Block2Upper0()
    ensures forall i :: 0 <= i < 4 ==> UpperOnly(Block(2)[i])
  {
  }

  lemma Block2Upper1()
    ensures forall i :: 4 <= i < 8 ==> UpperOnly(Block(2)[i])
  {
  }

  lemma Block2Upper2()
    ensures forall i :: 8 <= i < 12 ==> UpperOnly(Block(2)[i])
  {
  }

  lemma Block2Upper3()
    ensures forall i :: 12 <= i < 15 ==> UpperOnly(Block(2)[i])
  {
  }

  lemma Block3Upper0()
    ensures forall i :: 0 <= i < 4 ==> UpperOnly(Block(3)[i])
  {
  }

  lemma Block3Upper1()
    ensures forall i :: 4 <= i < 8 ==> UpperOnly(Block(3)[i])
  {
  }

  lemma Block3Upper2()
    ensures forall i :: 8 <= i < 12 ==> UpperOnly(Block(3)[i])
  {
  }

  lemma Block3Upper3()
    ensures forall i :: 12 <= i < 15 ==> UpperOnly(Block(3)[i])
  {
  }

  lemma Block4Upper0()
    ensures forall i :: 0 <= i < 4 ==> UpperOnly(Block(4)[i])
  {
  }

  lemma Block4Upper1()
    ensures forall i :: 4 <= i < 8 ==> UpperOnly(Block(4)[i])
  {
  }

  lemma Block4Upper2()
    ensures forall i :: 8 <= i < 12 ==> UpperOnly(Block(4)[i])
  {
  }

  lemma Block4Upper3()
    ensures forall i :: 12 <= i < 15 ==> UpperOnly(Block(4)[i])
  {
  }

  lemma Block5Upper0()
    ensures forall i :: 0 <= i < 4 ==> UpperOnly(Block(5)[i])
  {
  }

  lemma Block5Upper1()
    ensures forall i :: 4 <= i < 8 ==> UpperOnly(Block(5)[i])
  {
  }

  lemma Block5Upper2()
    ensures forall i :: 8 <= i < 12 ==> UpperOnly(Block(5)[i])
  {
  }

  lemma Block5Upper3()
    ensures forall i :: 12 <= i < 15 ==> UpperOnly(Block(5)[i])
  {
  }

  lemma Block6Upper0()
    ensures forall i :: 0 <= i < 4 ==> UpperOnly(Block(6)[i])
  {
  }

  lemma Block6Upper1()
    ensures forall i :: 4 <= i < 8 ==> UpperOnly(Block(6)[i])
  {
  }

  lemma Block6Upper2()
    ensures forall i :: 8 <= i < 12 ==> UpperOnly(Block(6)[i])
  {
  }

  lemma Block6Upper3()
    ensures forall i :: 12 <= i < 15 ==> UpperOnly(Block(6)[i])
  {
  }

  lemma Block7Upper0()
    ensures forall i :: 0 <= i < 4 ==> UpperOnly(Block(7)[i])
  {
  }

  lemma Block7Upper1()
    ensures forall i :: 4 <= i < 8 ==> UpperOnly(Block(7)[i])
  {
  }

  lemma Block7Upper2()
    ensures forall i :: 8 <= i < 12 ==> UpperOnly(Block(7)[i])
  {
  }

  lemma Block7Upper3()
    ensures forall i :: 12 <= i < 14 ==> UpperOnly(Block(7)[i])
  {
  }

  lemma Block0Distinct()
    ensures Distinct(Block(0))
  {
  }

  lemma Block1Distinct()
    ensures Distinct(Block(1))
  {
  }

  lemma Block2Distinct()
    ensures Distinct(Block(2))
  {
  }

  lemma Block3Distinct()
    ensures Distinct(Block(3))
  {
  }

  lemma Block4Distinct()
    ensures Distinct(Block(4))
  {
  }

  lemma Block5Distinct()
    ensures Distinct(Block(5))
  {
  }

  lemma Block6Distinct()
    ensures Distinct(Block(6))
  {
  }

  lemma Block7Distinct()
    ensures Distinct(Block(7))
  {
  }

  lemma Block0Disjoint1()
    ensures Disjoint(Block(0), Block(1))
  {
  }

  lemma Block0Disjoint2()
    ensures Disjoint(Block(0), Block(2))
  {
  }

  lemma Block0Disjoint3()
    ensures Disjoint(Block(0), Block(3))
  {
  }

  lemma Block0Disjoint4()
    ensures Disjoint(Block(0), Block(4))
  {
  }

  lemma Block0Disjoint5()
    ensures Disjoint(Block(0), Block(5))
  {
  }

  lemma Block0Disjoint6()
    ensures Disjoint(Block(0), Block(6))
  {
  }

  lemma Block0Disjoint7()
    ensures Disjoint(Block(0), Block(7))
  {
  }

  lemma Block1Disjoint2()
    ensures Disjoint(Block(1), Block(2))
  {
  }

  lemma Block1Disjoint3()
    ensures Disjoint(Block(1), Block(3))
  {
  }

  lemma Block1Disjoint4()
    ensures Disjoint(Block(1), Block(4))
  {
  }

  lemma Block1Disjoint5()
    ensures Disjoint(Block(1), Block(5))
  {
  }

  lemma Block1Disjoint6()
    ensures Disjoint(Block(1), Block(6))
  {
  }

  lemma Block1Disjoint7()
    ensures Disjoint(Block(1), Block(7))
  {
  }

  lemma Block2Disjoint3()
    ensures Disjoint(Block(2), Block(3))
  {
  }

  lemma Block2Disjoint4()
    ensures Disjoint(Block(2), Block(4))
  {
  }

  lemma Block2Disjoint5()
    ensures Disjoint(Block(2), Block(5))
  {
  }

  lemma Block2Disjoint6()
    ensures Disjoint(Block(2), Block(6))
  {
  }

  lemma Block2Disjoint7()
    ensures Disjoint(Block(2), Block(7))
  {
  }

  lemma Block3Disjoint4()
    ensures Disjoint(Block(3), Block(4))
  {
  }

  lemma Block3Disjoint5()
    ensures Disjoint(Block(3), Block(5))
  {
  }

  lemma Block3Disjoint6()
    ensures Disjoint(Block(3), Block(6))
  {
  }

  lemma Block3Disjoint7()
    ensures Disjoint(Block(3), Block(7))
  {
  }

  lemma Block4Disjoint5()
    ensures Disjoint(Block(4), Block(5))
  {
  }

  lemma Block4Disjoint6()
    ensures Disjoint(Block(4), Block(6))
  {
  }

  lemma Block4Disjoint7()
    ensures Disjoint(Block(4), Block(7))
  {
  }

  lemma Block5Disjoint6()
    ensures Disjoint(Block(5), Block(6))
  {
  }

  lemma Block5Disjoint7()
    ensures Disjoint(Block(5), Block(7))
  {
  }

  lemma Block6Disjoint7()
    ensures Disjoint(Block(6), Block(7))
  {
  }

  /** The whole table is its eight blocks in order. */
  lemma NamesBlocks()
    ensures NamesFrom(0) == Block(0) + Block(1) + Block(2) + Block(3) + Block(4) + Block(5) + Block(6) + Block(7)
  {
  }

  /** No name has a lower-case letter and no two names are equal. */
  lemma NamesClean()
    ensures AllUpperOnly(NamesFrom(0)) && Distinct(NamesFrom(0))
  {
    NamesBlocks();
    Block0Upper0(); Block0Upper1(); Block0Upper2(); Block0Upper3(); Block0Distinct();
    Block1Upper0(); Block1Upper1(); Block1Upper2(); Block1Upper3(); Block1Distinct();
    Block2Upper0(); Block2Upper1(); Block2Upper2(); Block2Upper3(); Block2Distinct();
    Block3Upper0(); Block3Upper1(); Block3Upper2(); Block3Upper3(); Block3Distinct();
    Block4Upper0(); Block4Upper1(); Block4Upper2(); Block4Upper3(); Block4Distinct();
    Block5Upper0(); Block5Upper1(); Block5Upper2(); Block5Upper3(); Block5Distinct();
    Block6Upper0(); Block6Upper1(); Block6Upper2(); Block6Upper3(); Block6Distinct();
    Block7Upper0(); Block7Upper1(); Block7Upper2(); Block7Upper3(); Block7Distinct();
    Block0Disjoint1();
    AppendClean(Block(0), Block(1));
    Block0Disjoint2();
    Block1Disjoint2();
    DisjointAppend(Block(0), Block(1), Block(2));
    AppendClean(Block(0) + Block(1), Block(2));
    Block0Disjoint3();
    Block1Disjoint3();
    Block2Disjoint3();
    DisjointAppend(Block(0), Block(1), Block(3));
    DisjointAppend(Block(0) + Block(1), Block(2), Block(3));
    AppendClean(Block(0) + Block(1) + Block(2), Block(3));
    Block0Disjoint4();
    Block1Disjoint4();
    Block2Disjoint4();
    Block3Disjoint4();
    DisjointAppend(Block(0), Block(1), Block(4));
    DisjointAppend(Block(0) + Block(1), Block(2), Block(4));
    DisjointAppend(Block(0) + Block(1) + Block(2), Block(3), Block(4));
    AppendClean(Block(0) + Block(1) + Block(2) + Block(3), Block(4));
    Block0Disjoint5();
    Block1Disjoint5();
    Block2Disjoint5();
    Block3Disjoint5();
    Block4Disjoint5();
    DisjointAppend(Block(0), Block(1), Block(5));
    DisjointAppend(Block(0) + Block(1), Block(2), Block(5));
    DisjointAppend(Block(0) + Block(1) + Block(2), Block(3), Block(5));
    DisjointAppend(Block(0) + Block(1) + Block(2) + Block(3), Block(4), Block(5));
    AppendClean(Block(0) + Block(1) + Block(2) + Block(3) + Block(4), Block(5));
    Block0Disjoint6();
    Block1Disjoint6();
    Block2Disjoint6();
    Block3Disjoint6();
    Block4Disjoint6();
    Block5Disjoint6();
    DisjointAppend(Block(0), Block(1), Block(6));
    DisjointAppend(Block(0) + Block(1), Block(2), Block(6));
    DisjointAppend(Block(0) + Block(1) + Block(2), Block(3), Block(6));
    DisjointAppend(Block(0) + Block(1) + Block(2) + Block(3), Block(4), Block(6));
    DisjointAppend(Block(0) + Block(1) + Block(2) + Block(3) + Block(4), Block(5), Block(6));
    AppendClean(Block(0) + Block(1) + Block(2) + Block(3) + Block(4) + Block(5), Block(6));
    Block0Disjoint7();
    Block1Disjoint7();
    Block2Disjoint7();
    Block3Disjoint7();
    Block4Disjoint7();
    Block5Disjoint7();
    Block6Disjoint7();
    DisjointAppend(Block(0), Block(1), Block(7));
    DisjointAppend(Block(0) + Block(1), Block(2), Block(7));
    DisjointAppend(Block(0) + Block(1) + Block(2), Block(3), Block(7));
    DisjointAppend(Block(0) + Block(1) + Block(2) + Block(3), Block(4), Block(7));
    DisjointAppend(Block(0) + Block(1) + Block(2) + Block(3) + Block(4), Block(5), Block(7));
    DisjointAppend(Block(0) + Block(1) + Block(2) + Block(3) + Block(4) + Block(5), Block(6), Block(7));
    AppendClean(Block(0) + Block(1) + Block(2) + Block(3) + Block(4) + Block(5) + Block(6), Block(7));
  }

  // No format name has X as its second letter; a text spelled "DXGI_FORMAT_..." therefore names no format.

  lemma Block0SecondNotX()
    ensures forall i :: 0 <= i < |Block(0)| ==> |Block(0)[i]| >= 2 && Block(0)[i][1] != 'X'
  {
  }

  lemma Block1SecondNotX()
    ensures forall i :: 0 <= i < |Block(1)| ==> |Block(1)[i]| >= 2 && Block(1)[i][1] != 'X'
  {
  }

  lemma Block2SecondNotX()
    ensures forall i :: 0 <= i < |Block(2)| ==> |Block(2)[i]| >= 2 && Block(2)[i][1] != 'X'
  {
  }

  lemma Block3SecondNotX()
    ensures forall i :: 0 <= i < |Block(3)| ==> |Block(3)[i]| >= 2 && Block(3)[i][1] != 'X'
  {
  }

  lemma Block4SecondNotX()
    ensures forall i :: 0 <= i < |Block(4)| ==> |Block(4)[i]| >= 2 && Block(4)[i][1] != 'X'
  {
  }

  lemma Block5SecondNotX()
    ensures forall i :: 0 <= i < |Block(5)| ==> |Block(5)[i]| >= 2 && Block(5)[i][1] != 'X'
  {
  }

  lemma Block6SecondNotX()
    ensures forall i :: 0 <= i < |Block(6)| ==> |Block(6)[i]| >= 2 && Block(6)[i][1] != 'X'
  {
  }

  lemma Block7SecondNotX()
    ensures forall i :: 0 <= i < |Block(7)| ==> |Block(7)[i]| >= 2 && Block(7)[i][1] != 'X'
  {
  }

  lemma BlockSecondNotX(b: nat)
    requires b < 8
    ensures forall i :: 0 <= i < |Block(b)| ==> |Block(b)[i]| >= 2 && Block(b)[i][1] != 'X'
  {
    match b
    case 0 => Block0SecondNotX();
    case 1 => Block1SecondNotX();
    case 2 => Block2SecondNotX();
    case 3 => Block3SecondNotX();
    case 4 => Block4SecondNotX();
    case 5 => Block5SecondNotX();
    case 6 => Block6SecondNotX();
    case 7 => Block7SecondNotX();
  }

  lemma {:induction false} NamesFromSecondNotX(b: nat)
    requires b <= 8
    ensures forall i :: 0 <= i < |NamesFrom(b)| ==> |NamesFrom(b)[i]| >= 2 && NamesFrom(b)[i][1] != 'X'
    decreases 8 - b
  {
    if b < 8 {
      BlockSecondNotX(b);
      NamesFromSecondNotX(b + 1);
    }
  }

  lemma NamesSecondNotX()
    ensures forall i :: 0 <= i < |NamesFrom(0)| ==> |NamesFrom(0)[i]| >= 2 && NamesFrom(0)[i][1] != 'X'
  {
    NamesFromSecondNotX(0);
  }

  /** Entry 41 of the table is R32_FLOAT, DXGI value 41. */
  lemma R32FloatEntry()
    ensures NamesFrom(0)[41] == "R32_FLOAT" && Values()[41] == 41
  {
  }
}
