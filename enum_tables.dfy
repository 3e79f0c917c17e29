/**
 * The shader-op parser's enumeration tables and the lookup that maps an
 * attribute's text to the D3D12 / DXGI value it names.
 */
module EnumTables {
  import opened Wrappers
  import opened Text
  import opened EnumNames
  import FormatTable

  /**
   * A ParserEnumTable: `names[i]` is spelled in the description and stands
   * for `values[i]`.  The two sequences have the table's ValueCount entries.
   */
  datatype EnumTable = EnumTable(kind: EnumKind, names: seq<string>, values: seq<nat>) {
    predicate WellFormed()
    {
      |names| == |values|
    }
  }

  /** The values beside the names of the table of kind `k`. */
  function Values(k: EnumKind): (r: seq<nat>)
    ensures |r| == |Names(k)|
  {
    match k
    case DxgiFormat => FormatTable.Values()
    case InputClassification => [1, 0]
    case HeapType => [1, 2, 3, 4]
    case CpuPageProperty => [0, 1, 2, 3]
    case MemoryPool => [0, 1, 2]
    case ResourceDimension => [0, 1, 2, 3, 4]
    case TextureLayout => [0, 1, 2, 3]
    case ResourceFlag => [0, 0x1, 0x2, 0x4, 0x8, 0x10, 0x20]
    case HeapFlag => [0, 0x1, 0x4, 0x8, 0x20, 0x40, 0x80, 0, 0xC0, 0x44, 0x84]
    case ResourceState => [0, 0x1, 0x2, 0x4, 0x8, 0x10, 0x20, 0x40, 0x80, 0x100, 0x200, 0x400, 0x800, 0x1000, 0x2000, 0xAC3, 0, 0x200]
    case DescriptorHeapType => [0, 1, 2, 3]
    case DescriptorHeapFlag => [0, 1]
    case UavDimension => [0, 1, 2, 3, 4, 5, 8]
  }

  /** The table that holds the names of kind `k`. */
  function TableOf(k: EnumKind): (t: EnumTable)
    ensures t.kind == k && t.WellFormed()
  {
    EnumTable(k, Names(k), Values(k))
  }

  /** The kinds of the tables of g_ParserEnumTables, in its declared order. */
  function ParserEnumKinds(): seq<EnumKind>
  {
    [ InputClassification, DxgiFormat, HeapType, CpuPageProperty, MemoryPool, ResourceDimension,
      TextureLayout, ResourceFlag, HeapFlag, ResourceState, DescriptorHeapType, DescriptorHeapFlag,
      UavDimension ]
  }

  /** g_ParserEnumTables: one table per kind, in that order. */
  function ParserEnumTables(): (r: seq<EnumTable>)
    ensures |r| == |ParserEnumKinds()|
    ensures forall i :: 0 <= i < |r| ==> r[i] == TableOf(ParserEnumKinds()[i])
  {
    seq(|ParserEnumKinds()|, i requires 0 <= i < |ParserEnumKinds()| => TableOf(ParserEnumKinds()[i]))
  }

  /** The inner loop of GetEnumValue: the first entry whose name matches, ignoring case. */
  function FindName(names: seq<string>, name: string): (r: Option<nat>)
    ensures r.Some? ==> r.value < |names| && CaseEq(name, names[r.value])
    ensures r.Some? ==> forall j :: 0 <= j < r.value ==> !CaseEq(name, names[j])
    ensures r.None? ==> forall j :: 0 <= j < |names| ==> !CaseEq(name, names[j])
  {
    if names == [] then None
    else if CaseEq(name, names[0]) then Some(0)
    else match FindName(names[1..], name)
      case None => None
      case Some(j) => Some(j + 1)
  }

  /** The search of one table: the first matching entry's value, or E_INVALIDARG. */
  function Lookup(t: EnumTable, name: string): (r: Result<nat>)
    requires t.WellFormed()
    ensures r.Ok? <==> exists j :: 0 <= j < |t.names| && CaseEq(name, t.names[j])
    ensures r.Ok? ==> exists j :: 0 <= j < |t.names| && CaseEq(name, t.names[j]) && r.value == t.values[j]
                                  && forall i :: 0 <= i < j ==> !CaseEq(name, t.names[i])
    ensures r.Err? ==> r.error == InvalidArg
  {
    match FindName(t.names, name)
    case Some(j) => Ok(t.values[j])
    case None => Err(InvalidArg)
  }

  /** The outer loop of GetEnumValue: tables of another kind are skipped. */
  function SearchTables(tables: seq<EnumTable>, name: string, k: EnumKind): (r: Result<nat>)
    requires forall i :: 0 <= i < |tables| ==> tables[i].WellFormed()
    ensures r.Err? ==> r.error == InvalidArg
  {
    if tables == [] then Err(InvalidArg)
    else if tables[0].kind != k then SearchTables(tables[1..], name, k)
    else
      assert tables[0].WellFormed();
      match FindName(tables[0].names, name)
      case Some(j) => Ok(tables[0].values[j])
      case None => SearchTables(tables[1..], name, k)
  }

  /**
   * GetEnumValue (and GetEnumValueT, whose cast keeps every value of these
   * tables): the first entry of the table of the requested kind whose name
   * matches, ignoring case.
   */
  function GetEnumValue(name: string, k: EnumKind): (r: Result<nat>)
    ensures r.Err? ==> r.error == InvalidArg
  {
    Lookup(TableOf(k), name)
  }

  /** The scan of every table of g_ParserEnumTables, skipping other kinds, is GetEnumValue. */
  lemma ScanFindsKindTable(name: string, k: EnumKind)
    ensures forall i :: 0 <= i < |ParserEnumTables()| ==> ParserEnumTables()[i].WellFormed()
    ensures SearchTables(ParserEnumTables(), name, k) == GetEnumValue(name, k)
  {
    TablesWellFormed();
    TableKindsDistinct();
    SearchOnlyKind(ParserEnumTables(), name, k, KindIndex(k));
  }

  /** The position of kind `k` in g_ParserEnumTables. */
  function KindIndex(k: EnumKind): (i: nat)
    ensures i < |ParserEnumKinds()| && ParserEnumKinds()[i] == k
    ensures ParserEnumTables()[i] == TableOf(k)
  {
    match k
    case InputClassification => 0
    case DxgiFormat => 1
    case HeapType => 2
    case CpuPageProperty => 3
    case MemoryPool => 4
    case ResourceDimension => 5
    case TextureLayout => 6
    case ResourceFlag => 7
    case HeapFlag => 8
    case ResourceState => 9
    case DescriptorHeapType => 10
    case DescriptorHeapFlag => 11
    case UavDimension => 12
  }

  lemma TablesWellFormed()
    ensures forall i :: 0 <= i < |ParserEnumTables()| ==> ParserEnumTables()[i].WellFormed()
  {
  }

  /** No two tables of g_ParserEnumTables have the same kind. */
  lemma TableKindsDistinct()
    ensures forall i, j :: 0 <= i < j < |ParserEnumTables()| ==> ParserEnumTables()[i].kind != ParserEnumTables()[j].kind
  {
    KindsDistinct();
  }

  lemma KindsDistinct()
    ensures forall i, j :: 0 <= i < j < |ParserEnumKinds()| ==> ParserEnumKinds()[i] != ParserEnumKinds()[j]
  {
  }

  /** When exactly one table has kind `k`, the scan is the search of that table. */
  lemma {:induction false} SearchOnlyKind(tables: seq<EnumTable>, name: string, k: EnumKind, at: nat)
    requires forall i :: 0 <= i < |tables| ==> tables[i].WellFormed()
    requires at < |tables| && tables[at].kind == k
    requires forall i :: 0 <= i < |tables| && i != at ==> tables[i].kind != k
    ensures SearchTables(tables, name, k) == Lookup(tables[at], name)
  {
    if at > 0 {
      SearchOnlyKind(tables[1..], name, k, at - 1);
    } else {
      assert forall i :: 0 <= i < |tables[1..]| ==> tables[1..][i].kind != k;
      NoKindFails(tables[1..], name, k);
    }
  }

  lemma {:induction false} NoKindFails(tables: seq<EnumTable>, name: string, k: EnumKind)
    requires forall i :: 0 <= i < |tables| ==> tables[i].WellFormed()
    requires forall i :: 0 <= i < |tables| ==> tables[i].kind != k
    ensures SearchTables(tables, name, k) == Err(InvalidArg)
  {
    if tables != [] {
      NoKindFails(tables[1..], name, k);
    }
  }

  /** A table on which every entry can be looked up by its own name. */
  predicate CleanNames(t: EnumTable)
  {
    AllUpperOnly(t.names) && Distinct(t.names)
  }

  lemma {:induction false} LookupOwnName(t: EnumTable, j: nat)
    requires t.WellFormed() && CleanNames(t) && j < |t.names|
    ensures Lookup(t, t.names[j]) == Ok(t.values[j])
  {
    CaseEqRefl(t.names[j]);
    match FindName(t.names, t.names[j])
    case Some(i) =>
      if i != j {
        assert i < j;
        CaseEqSym(t.names[j], t.names[i]);
        UpperCaseEq(t.names[i], t.names[j]);
        assert false;
      }
    case None =>
  }

  lemma TablesClean(k: EnumKind)
    ensures CleanNames(TableOf(k))
  {
    InputClassificationNamesClean();
    FormatTable.NamesClean();
    HeapTypeNamesClean();
    CpuPagePropertyNamesClean();
    MemoryPoolNamesClean();
    ResourceDimensionNamesClean();
    TextureLayoutNamesClean();
    ResourceFlagNamesClean();
    HeapFlagNamesClean();
    ResourceStateNamesClean();
    DescriptorHeapTypeNamesClean();
    DescriptorHeapFlagNamesClean();
    UavDimensionNamesClean();
  }

  /** Every entry of every table is found by its own name, in any case. */
  lemma GetEnumValueOwnName(k: EnumKind, j: nat, spelled: string)
    requires j < |TableOf(k).names| && CaseEq(spelled, TableOf(k).names[j])
    ensures GetEnumValue(spelled, k) == Ok(TableOf(k).values[j])
  {
    var t := TableOf(k);
    TablesClean(k);
    LookupOwnName(t, j);
    match FindName(t.names, spelled)
    case Some(i) =>
      CaseEqSym(spelled, t.names[i]);
      CaseEqTrans(t.names[i], spelled, t.names[j]);
      UpperCaseEq(t.names[i], t.names[j]);
      if i != j {
        assert false;
      }
    case None =>
  }

  lemma CaseEqTrans(a: string, b: string, c: string)
    requires CaseEq(a, b) && CaseEq(b, c)
    ensures CaseEq(a, c)
  {
  }

  /** The memory-pool entry is "L0 " with a trailing space, so "L0" is not a memory pool. */
  lemma MemoryPoolL0()
    ensures GetEnumValue("L0", MemoryPool) == Err(InvalidArg)
    ensures GetEnumValue("l0 ", MemoryPool) == Ok(1)
  {
    var names := Names(MemoryPool);
    assert !CaseEq("L0", names[2]) by {
      assert Lower("L0"[1]) != Lower(names[2][1]);
    }
    assert forall j :: 0 <= j < |names| ==> !CaseEq("L0", names[j]);
    assert CaseEq("l0 ", names[1]);
    GetEnumValueOwnName(MemoryPool, 1, "l0 ");
  }

  /** No format name has an X in second place, so a text with one there is no format. */
  lemma DxgiFormatSecondX(name: string)
    requires |name| >= 2 && Lower(name[1]) == 'x'
    ensures GetEnumValue(name, DxgiFormat) == Err(InvalidArg)
  {
    NoFormatNameSecondX(name);
  }

  lemma NoFormatNameSecondX(name: string)
    requires |name| >= 2 && Lower(name[1]) == 'x'
    ensures forall j :: 0 <= j < |Names(DxgiFormat)| ==> !CaseEq(name, Names(DxgiFormat)[j])
  {
    var names := Names(DxgiFormat);
    FormatTable.NamesClean();
    FormatTable.NamesSecondNotX();
    forall j | 0 <= j < |names|
      ensures !CaseEq(name, names[j])
    {
      SecondLetterDiffers(name, names[j]);
    }
  }

  lemma SecondLetterDiffers(a: string, b: string)
    requires |a| >= 2 && Lower(a[1]) == 'x'
    requires |b| >= 2 && UpperOnly(b) && b[1] != 'X'
    ensures !CaseEq(a, b)
  {
    assert b[1] < 'a';
  }
}
