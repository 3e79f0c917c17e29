# ShaderOpTest, modelled in Dafny

ShaderOpTest is the DirectX Shader Compiler's harness for running a small
Direct3D 12 workload described in XML (a "shader op"). It has four parts, and
this project models the logic in each of them that does not depend on a
device.

- **Parser.** The parser reads attributes into D3D12 enumerations through
  name tables that compare names case-insensitively (`GetEnumValue`,
  `ReadAttrEnumT`). It reads numbers through `_wtol`, narrows them to
  UINT/UINT16, and fixes the parts of a resource description that the
  dimension implies. It also:
  - back-fills a descriptor's name and resource name from each other;
  - defaults the flags of an RTV heap;
  - decodes the byte-initialisation text of a resource;
  - applies the rules for a shader's text and entry point.
- **Engine bookkeeping.** `ShaderOpTest` creates the resources, descriptor
  heaps and views. It binds heaps, root values and render targets, draws or
  dispatches, copies read-back resources, and keeps a fence. The model keeps
  the same bookkeeping: resource data by name, descriptor data by resource
  name, heaps and heaps by name, and the fence value and what it signalled.
  The device is a log of the calls it would receive, each with the arguments
  the bookkeeping chooses, and every device call succeeds.
- **Support code.** The string table that interns the parser's strings, the
  byte-size table of DXGI formats, `TargetUsesDxil` and the way a root
  signature is quoted are modelled too.

Errors that the source raises with `CHECK_HR` or by dereferencing null are
modelled as an `Outcome`/`Result` with an error. The first error stops the
operation, as the exception does.

Where the Findings below show the source to be wrong, the model has both
versions of the leaf. Everything built on that leaf uses the corrected
version:

- the prefix strip of `ReadAttrEnumT`;
- the sign of "inf" and "-inf";
- the "PlaneSlice" read of a Texture2DArray view;
- the byte size of formats 20 to 22.

The composed parser and engine members therefore depart from the source on
exactly those inputs. Four lemmas bound the departure:
`Attributes.ReadAttrEnumNoPrefixAgrees` and `Attributes.ReadAttrEnumFormatAgrees`,
`ByteInit.ClassifyDiffersOnInfinities` and `Lookups.ByteSizeAgreesOutsideX24`.
`Parser.Texture2DArrayRead` shows that only a Texture2DArray view differs.
"## Left out" names each member concerned, one line each: every member whose contract or definition reaches one of these leaves,
whether it computes a size, a stride, an initial value or a descriptor.

- `InvalidArg` stands for `E_INVALIDARG`.
- `Overflow` stands for a failed `UInt64ToUInt`/`UInt64ToUInt16` or `errno == ERANGE`.
- `NullDereference`, `OutOfBoundsRead`, `OutOfBoundsWrite` and
  `DivideByZero` stand for the undefined behaviour the source would reach.

Modules, in dependency order:

- `Wrappers`: Option/Result/Outcome.
- `Text`: ASCII case folding, which stands for `_wcsicmp`/`_stricmp`/`_wcsnicmp`.
- `D3D12`: the constants.
- `EnumNames`, `FormatTable`, `EnumTables`: the thirteen parser enumeration tables and `GetEnumValue`.
- `Lookups`: `GetByteSizeForFormat` and `TargetUsesDxil`.
- `Attributes`: `_wtol` and the `ReadAttr*` readers.
- `ByteInit`: the byte-initialisation tokenizer.
- `Interning`: the `string_table` class.
- `ShaderOpData`: the shader-op records.
- `Parser`: resource, descriptor, heap and shader post-processing, and `GetShaderOp`.
- `RootSignature`: root-signature quoting, in place on an array.
- `EngineRules`: the engine's pure rules.
- `ResourceSteps`, `DescriptorSteps`, `CommandSteps`: functions that state what each engine loop does, one step and the whole loop.
- `Engine`: the `ShaderOpTest` class. Its methods update fields and a command log, and each is proved equal to those functions.

All source references are to `tools/clang/unittests/HLSL/ShaderOpTest.cpp`.

## Model

| member | source | states |
|---|---|---|
| Text.Take | tools/clang/unittests/HLSL/ShaderOpTest.cpp:1359 | the part of a string a bounded compare inspects is a prefix of at most n characters, and the whole string when it is shorter |
| Text.CaseEqSym | tools/clang/unittests/HLSL/ShaderOpTest.cpp:1334 | case-insensitive equality is symmetric |
| Text.UpperCaseEq | tools/clang/unittests/HLSL/ShaderOpTest.cpp:1081-1308 | two table names without lower-case letters that compare equal case-insensitively are the same name |
| EnumNames.InputClassificationNamesClean | tools/clang/unittests/HLSL/ShaderOpTest.cpp:1081-1084 | the INPUT_CLASSIFICATION names are upper-case and pairwise distinct |
| EnumNames.HeapTypeNamesClean | tools/clang/unittests/HLSL/ShaderOpTest.cpp:1208-1213 | the HEAP_TYPE names are upper-case and pairwise distinct |
| EnumNames.CpuPagePropertyNamesClean | tools/clang/unittests/HLSL/ShaderOpTest.cpp:1215-1220 | the CPU_PAGE_PROPERTY names are upper-case and pairwise distinct |
| EnumNames.MemoryPoolNamesClean | tools/clang/unittests/HLSL/ShaderOpTest.cpp:1222-1226 | the MEMORY_POOL names are upper-case and pairwise distinct, the trailing blank of "L0 " included |
| EnumNames.ResourceDimensionNamesClean | tools/clang/unittests/HLSL/ShaderOpTest.cpp:1228-1234 | the RESOURCE_DIMENSION names are upper-case and pairwise distinct |
| EnumNames.TextureLayoutNamesClean | tools/clang/unittests/HLSL/ShaderOpTest.cpp:1236-1241 | the TEXTURE_LAYOUT names are upper-case and pairwise distinct |
| EnumNames.ResourceFlagNamesClean | tools/clang/unittests/HLSL/ShaderOpTest.cpp:1243-1251 | the RESOURCE_FLAG names are upper-case and pairwise distinct |
| EnumNames.HeapFlagNamesClean | tools/clang/unittests/HLSL/ShaderOpTest.cpp:1253-1265 | the HEAP_FLAG names are upper-case and pairwise distinct |
| EnumNames.ResourceStateNamesClean | tools/clang/unittests/HLSL/ShaderOpTest.cpp:1267-1286 | the RESOURCE_STATE names are upper-case and pairwise distinct |
| EnumNames.DescriptorHeapTypeNamesClean | tools/clang/unittests/HLSL/ShaderOpTest.cpp:1288-1293 | the DESCRIPTOR_HEAP_TYPE names are upper-case and pairwise distinct |
| EnumNames.DescriptorHeapFlagNamesClean | tools/clang/unittests/HLSL/ShaderOpTest.cpp:1295-1298 | the DESCRIPTOR_HEAP_FLAG names are upper-case and pairwise distinct |
| EnumNames.UavDimensionNamesClean | tools/clang/unittests/HLSL/ShaderOpTest.cpp:1300-1308 | the UAV_DIMENSION names are upper-case and pairwise distinct |
| FormatTable.NamesClean | tools/clang/unittests/HLSL/ShaderOpTest.cpp:1086-1206 | the 119 DXGI_FORMAT names are upper-case and pairwise distinct |
| FormatTable.NamesSecondNotX | tools/clang/unittests/HLSL/ShaderOpTest.cpp:1086-1206 | no DXGI_FORMAT name has 'X' as its second character |
| FormatTable.R32FloatEntry | tools/clang/unittests/HLSL/ShaderOpTest.cpp:1128 | the table maps "R32_FLOAT" to format 41 |
| EnumTables.TableOf | tools/clang/unittests/HLSL/ShaderOpTest.cpp:1311-1325 | each kind's table has one value per name and is tagged with that kind |
| EnumTables.ParserEnumTables | tools/clang/unittests/HLSL/ShaderOpTest.cpp:1311-1325 | g_ParserEnumTables lists one table per kind, in the source's order |
| EnumTables.FindName | tools/clang/unittests/HLSL/ShaderOpTest.cpp:1333-1339 | the position found is the first name equal to the text ignoring case; none means no name matches |
| EnumTables.Lookup | tools/clang/unittests/HLSL/ShaderOpTest.cpp:1333-1339 | succeeds iff some name matches the text ignoring case, with the value of the first match; otherwise E_INVALIDARG |
| EnumTables.SearchTables | tools/clang/unittests/HLSL/ShaderOpTest.cpp:1327-1343 | the scan over all tables fails only with E_INVALIDARG |
| EnumTables.GetEnumValue | tools/clang/unittests/HLSL/ShaderOpTest.cpp:1327-1343 | GetEnumValue fails only with E_INVALIDARG |
| EnumTables.ScanFindsKindTable | tools/clang/unittests/HLSL/ShaderOpTest.cpp:1327-1343 | scanning g_ParserEnumTables and skipping other kinds gives the same result as looking up the kind's own table |
| EnumTables.KindIndex | tools/clang/unittests/HLSL/ShaderOpTest.cpp:1311-1325 | every kind has a table in g_ParserEnumTables |
| EnumTables.TableKindsDistinct | tools/clang/unittests/HLSL/ShaderOpTest.cpp:1311-1325 | no two tables in g_ParserEnumTables have the same kind |
| EnumTables.SearchOnlyKind | tools/clang/unittests/HLSL/ShaderOpTest.cpp:1328-1341 | when exactly one table has the kind, the scan's result is that table's lookup |
| EnumTables.NoKindFails | tools/clang/unittests/HLSL/ShaderOpTest.cpp:1342 | when no table has the kind, the scan returns E_INVALIDARG |
| EnumTables.LookupOwnName | tools/clang/unittests/HLSL/ShaderOpTest.cpp:1333-1337 | in a table of distinct upper-case names, a table's own j-th name reads its j-th value |
| EnumTables.TablesClean | tools/clang/unittests/HLSL/ShaderOpTest.cpp:1081-1308 | every table's names are upper-case and pairwise distinct |
| EnumTables.GetEnumValueOwnName | tools/clang/unittests/HLSL/ShaderOpTest.cpp:1327-1343 | any spelling of a table name, in any case, reads that entry's value |
| EnumTables.MemoryPoolL0 | tools/clang/unittests/HLSL/ShaderOpTest.cpp:1224 | because the table entry is "L0 ", the text "L0" is rejected and "l0 " reads MEMORY_POOL_L0 |
| EnumTables.DxgiFormatSecondX | tools/clang/unittests/HLSL/ShaderOpTest.cpp:1086-1206 | any text whose second character is 'x' or 'X' (such as one starting "DXGI_FORMAT_") is not a format name |
| Lookups.GetByteSizeForFormatAsWritten | tools/clang/unittests/HLSL/ShaderOpTest.cpp:106-178 | as written: a size exactly for the formats from 1 to 66, and E_INVALIDARG for every other format |
| Lookups.GetByteSizeForFormat | tools/clang/unittests/HLSL/ShaderOpTest.cpp:106-178 | corrected: a size exactly for the formats from 1 to 66, always one of 1, 2, 4, 8, 12, 16, and E_INVALIDARG for every other format |
| Lookups.TypelessParent | tools/clang/unittests/HLSL/ShaderOpTest.cpp:106-178 | every sized format has a typeless family head at or before it |
| Lookups.ByteSizeFollowsParent | tools/clang/unittests/HLSL/ShaderOpTest.cpp:106-178 | corrected: every format has the byte size of its typeless family |
| Lookups.ByteSizeAgreesOutsideX24 | tools/clang/unittests/HLSL/ShaderOpTest.cpp:106-178 | the switch as written and the corrected one give the same result exactly for the formats outside 20 to 22 |
| Lookups.ByteSizeAsWrittenBreaksParent | tools/clang/unittests/HLSL/ShaderOpTest.cpp:127-129 | as written, D32_FLOAT_S8X24_UINT has size 4 while its family head R32G8X24_TYPELESS has size 8 |
| Lookups.ByteSizeNonIncreasing | tools/clang/unittests/HLSL/ShaderOpTest.cpp:106-173 | the byte size never grows as the format number grows |
| Lookups.TargetUsesDxil | tools/clang/unittests/HLSL/ShaderOpTest.cpp:700-702 | a target counts as DXIL only when it is longer than three characters; with a fourth character from 6 to 9 it does, and from 0 to 5 it does not |
| Lookups.TargetUsesDxilStage | tools/clang/unittests/HLSL/ShaderOpTest.cpp:700-702 | a target "xs_M_m" uses DXIL iff its major version M is at least 6 |
| Lookups.TargetUsesDxilLongStage | tools/clang/unittests/HLSL/ShaderOpTest.cpp:700-702 | any target with a three-letter stage, such as "lib_…", counts as DXIL, because the '_' it then tests sorts after '6' |
| Lookups.TargetUsesDxilShort | tools/clang/unittests/HLSL/ShaderOpTest.cpp:700-702 | a target of three characters or fewer never uses DXIL |
| Attributes.SkipSpaces | tools/clang/unittests/HLSL/ShaderOpTest.cpp:1454 | `_wtol` skips exactly the leading white space |
| Attributes.DigitPrefix | tools/clang/unittests/HLSL/ShaderOpTest.cpp:1454 | `_wtol` reads exactly the maximal run of digits |
| Attributes.Wtol | tools/clang/unittests/HLSL/ShaderOpTest.cpp:1454-1455 | the value is within the range of a long; otherwise the error is ERANGE |
| Attributes.SignedValue | tools/clang/unittests/HLSL/ShaderOpTest.cpp:1454-1455 | a signed digit run is within the range of a long, or is ERANGE |
| Attributes.DecimalStringValue | tools/clang/unittests/HLSL/ShaderOpTest.cpp:1454 | the digits of a decimal spelling read back as the number spelled |
| Attributes.SkipLeadingSpaces | tools/clang/unittests/HLSL/ShaderOpTest.cpp:1454 | leading white space before a non-space character is skipped entirely |
| Attributes.DigitRun | tools/clang/unittests/HLSL/ShaderOpTest.cpp:1454 | the digit run ends at the first non-digit |
| Attributes.SignedParts | tools/clang/unittests/HLSL/ShaderOpTest.cpp:1454-1455 | a sign followed by digits and a non-digit reads the signed number, or ERANGE out of range |
| Attributes.WtolParts | tools/clang/unittests/HLSL/ShaderOpTest.cpp:1454-1455 | white space, sign, digits and anything after them read as the signed number of the digits, or ERANGE once it is out of range |
| Attributes.WtolDecimal | tools/clang/unittests/HLSL/ShaderOpTest.cpp:1454 | round trip: the decimal spelling of a number in range, signed and padded, reads back as that number |
| Attributes.WtolTooLarge | tools/clang/unittests/HLSL/ShaderOpTest.cpp:1455 | a number above LONG_MAX raises ERANGE |
| Attributes.WtolNoDigits | tools/clang/unittests/HLSL/ShaderOpTest.cpp:1454 | text that starts with no space, sign or digit reads as 0 |
| Attributes.ReadAttrStr | tools/clang/unittests/HLSL/ShaderOpTest.cpp:1418-1428 | no string exactly when the attribute is absent; otherwise its text |
| Attributes.ReadAttrBool | tools/clang/unittests/HLSL/ShaderOpTest.cpp:1430-1445 | definition of ReadAttrBOOL, with no contract of its own: the default for an absent attribute, otherwise TRUE iff the text is "true" ignoring case; stated by the three lemmas below |
| Attributes.ReadAttrBoolText | tools/clang/unittests/HLSL/ShaderOpTest.cpp:1436-1442 | a present attribute reads TRUE iff its text is "true" in some case |
| Attributes.ReadAttrBoolAbsent | tools/clang/unittests/HLSL/ShaderOpTest.cpp:1431-1433 | an absent attribute reads the default |
| Attributes.ReadAttrBoolOthers | tools/clang/unittests/HLSL/ShaderOpTest.cpp:1437-1442 | "1", "yes" and "TRUE " read FALSE even against a TRUE default, and "TrUe" reads TRUE |
| Attributes.ReadAttrUInt64 | tools/clang/unittests/HLSL/ShaderOpTest.cpp:1447-1459 | absent gives the default. Present, it fails (E_INVALIDARG) exactly when `_wtol` raises ERANGE. Otherwise it is the long converted to UINT64 (modulo 2^64) |
| Attributes.ReadAttrUInt | tools/clang/unittests/HLSL/ShaderOpTest.cpp:1461-1466 | succeeds iff the UINT64 read succeeds with a value below 2^32, keeping that value; otherwise the narrowing fails |
| Attributes.ReadAttrUInt16 | tools/clang/unittests/HLSL/ShaderOpTest.cpp:1468-1473 | succeeds iff the UINT64 read succeeds with a value below 2^16, keeping that value; otherwise the narrowing fails |
| Attributes.ReadAttrUIntDecimal | tools/clang/unittests/HLSL/ShaderOpTest.cpp:1447-1473 | a decimal up to LONG_MAX reads as itself through UINT64 and UINT, and through UINT16 iff it is below 2^16 |
| Attributes.WtolMinusOne | tools/clang/unittests/HLSL/ShaderOpTest.cpp:1454 | "-1" reads as -1 |
| Attributes.ReadAttrUIntMinusOne | tools/clang/unittests/HLSL/ShaderOpTest.cpp:1456-1471 | "-1" becomes 2^64 - 1 as UINT64, and both narrowings reject it |
| Attributes.ReadAttrUIntFromText | tools/clang/unittests/HLSL/ShaderOpTest.cpp:1461-1466 | an attribute read as UINT never exceeds LONG_MAX |
| Attributes.EnumDefault | tools/clang/unittests/HLSL/ShaderOpTest.cpp:1366-1415 | definition, with no contract of its own: the value each ReadAttrEnumT instantiation passes as its default |
| Attributes.EnumDefaultInTable | tools/clang/unittests/HLSL/ShaderOpTest.cpp:1366-1415 | every kind's default is one of the values of its table, so an absent attribute reads as a valid enumerator |
| Attributes.EnumText | tools/clang/unittests/HLSL/ShaderOpTest.cpp:1359-1360 | corrected strip: present text loses the prefix exactly when it starts with the prefix ignoring case, and is otherwise unchanged |
| Attributes.EnumTextAsWritten | tools/clang/unittests/HLSL/ShaderOpTest.cpp:1359-1360 | as written: can read past the end only when the text is shorter than the prefix |
| Attributes.EnumTextAsWrittenKeepsPrefix | tools/clang/unittests/HLSL/ShaderOpTest.cpp:1359 | as written, prefixed text is left unstripped when the attribute name does not match, while the corrected strip removes the prefix |
| Attributes.EnumTextAsWrittenOverrun | tools/clang/unittests/HLSL/ShaderOpTest.cpp:1359-1360 | as written, a short name equal to its text makes the pointer skip past the end of the text |
| Attributes.EnumTextNoPrefix | tools/clang/unittests/HLSL/ShaderOpTest.cpp:1359 | without a prefix both strips agree and return the text unchanged |
| Attributes.ReadAttrEnum | tools/clang/unittests/HLSL/ShaderOpTest.cpp:1352-1416 | absent gives the kind's default (S_FALSE); a value read from a present attribute is marked present; failures are E_INVALIDARG |
| Attributes.ReadAttrEnumAsWritten | tools/clang/unittests/HLSL/ShaderOpTest.cpp:1352-1365 | as written: an absent attribute gives the default, and a present one that reads is marked present |
| Attributes.ReadAttrEnumOwnName | tools/clang/unittests/HLSL/ShaderOpTest.cpp:1352-1365 | an unprefixed table name, spelled in any case, reads as its value |
| Attributes.ReadAttrEnumPrefixed | tools/clang/unittests/HLSL/ShaderOpTest.cpp:1378-1380 | "DXGI_FORMAT_" followed by a format name reads that format |
| Attributes.ReadAttrEnumUnknown | tools/clang/unittests/HLSL/ShaderOpTest.cpp:1361 | text that matches no name of the kind is E_INVALIDARG |
| Attributes.ReadAttrEnumAsWrittenKeepsPrefix | tools/clang/unittests/HLSL/ShaderOpTest.cpp:1359 | as written, Format="DXGI_FORMAT_R32_FLOAT" fails with E_INVALIDARG |
| Attributes.ReadAttrEnumAsWrittenOverrun | tools/clang/unittests/HLSL/ShaderOpTest.cpp:1359-1360 | as written, Format="format" reads past the end of its text |
| Attributes.ReadAttrEnumStripsPrefix | tools/clang/unittests/HLSL/ShaderOpTest.cpp:1359 | corrected, Format="DXGI_FORMAT_R32_FLOAT" reads R32_FLOAT |
| Attributes.ReadAttrEnumFormatAgrees | tools/clang/unittests/HLSL/ShaderOpTest.cpp:1366-1416 | for formats, the as-written and corrected readers agree unless the text starts with "DXGI_FORMAT_" or matches the attribute's own name in its first twelve characters |
| Attributes.ReadAttrEnumNoPrefixAgrees | tools/clang/unittests/HLSL/ShaderOpTest.cpp:1366-1416 | for every kind other than DXGI_FORMAT, which has no prefix to strip, the as-written and corrected readers agree on every attribute set |
| ByteInit.Bytes | tools/clang/unittests/HLSL/ShaderOpTest.cpp:1902-1906 | a float contributes exactly four bytes |
| ByteInit.IsSeparator | tools/clang/unittests/HLSL/ShaderOpTest.cpp:1796-1810 | definition, with no contract of its own: blank, tab, CR, LF, braces and commas separate the literals; stated by SeparatorsEnd and LiteralEnd |
| ByteInit.SeparatorsEnd | tools/clang/unittests/HLSL/ShaderOpTest.cpp:1796-1802 | the position reached skips only separators and stops at a non-separator or the end |
| ByteInit.LiteralEnd | tools/clang/unittests/HLSL/ShaderOpTest.cpp:1803-1810 | the position reached skips only non-separators and stops at a separator or the end |
| ByteInit.SkipByteInitSeparators | tools/clang/unittests/HLSL/ShaderOpTest.cpp:1796-1802 | the pointer loop stops where SeparatorsEnd says |
| ByteInit.FindByteInitSeparators | tools/clang/unittests/HLSL/ShaderOpTest.cpp:1803-1810 | the pointer loop stops where LiteralEnd says |
| ByteInit.ClassifyAsWritten | tools/clang/unittests/HLSL/ShaderOpTest.cpp:1884-1901 | definition as written, with no contract of its own: the whole remaining text, compared ignoring case, selects NaN, an infinity or a denormal, with the signs of the infinities as the source has them, and anything else goes to `wcstof`; stated by InfinitySpellings and ClassifyDiffersOnInfinities |
| ByteInit.Classify | tools/clang/unittests/HLSL/ShaderOpTest.cpp:1884-1901 | corrected definition, with no contract of its own: the same spellings with the signs of the infinities following the spelling; stated by the same two lemmas |
| ByteInit.InitBytes | tools/clang/unittests/HLSL/ShaderOpTest.cpp:1878-1908 | definition of the token loop, with no contract of its own: the bytes of each literal from position p on; stated by InitBytesLength and AppendInitText |
| ByteInit.ClassifyDiffersOnInfinities | tools/clang/unittests/HLSL/ShaderOpTest.cpp:1884-1901 | the as-written and corrected classifications differ exactly in swapping +infinity and -infinity |
| ByteInit.InfinitySpellings | tools/clang/unittests/HLSL/ShaderOpTest.cpp:1887-1892 | as written, "-inf" gives +infinity and "INF"/"+Inf" give -infinity; corrected, the signs follow the spelling |
| ByteInit.AppendInitText | tools/clang/unittests/HLSL/ShaderOpTest.cpp:1878-1908 | the token loop appends the bytes of the text's literals, in order, to the bytes already there |
| ByteInit.LiteralsStep | tools/clang/unittests/HLSL/ShaderOpTest.cpp:1878-1881 | from a separator, the literals are none if only separators remain, else one plus those after it |
| ByteInit.InitBytesLength | tools/clang/unittests/HLSL/ShaderOpTest.cpp:1878-1908 | from a literal boundary the text contributes four bytes per literal |
| ByteInit.InitTextLength | tools/clang/unittests/HLSL/ShaderOpTest.cpp:1878-1908 | a text node contributes four bytes for each maximal run of non-separators |
| ByteInit.SpelledHasNoSeparator | tools/clang/unittests/HLSL/ShaderOpTest.cpp:1884-1898 | the remaining text matches one of the five spellings only when it holds no separator |
| ByteInit.SpelledIsLast | tools/clang/unittests/HLSL/ShaderOpTest.cpp:1884-1898 | a spelled float is recognised only as the last literal of its text node |
| ByteInit.SpelledNotLast | tools/clang/unittests/HLSL/ShaderOpTest.cpp:1884-1900 | in "inf, 1" the "inf" is not the spelled infinity but goes to `wcstof` |
| Interning.StringTable.constructor | tools/clang/unittests/HLSL/ShaderOpTest.cpp:279-294 | the table starts empty |
| Interning.StringTable.Content | tools/clang/unittests/HLSL/ShaderOpTest.cpp:279-294 | every stored string is found under its own handle |
| Interning.StringTable.Insert | tools/clang/unittests/HLSL/ShaderOpTest.cpp:279-294 | a known string returns its handle and changes nothing; a new string is stored once, at the end, under a new handle |
| Interning.StringTable.HandlesDistinct | tools/clang/unittests/HLSL/ShaderOpTest.cpp:280-293 | two strings share a handle iff they are equal |
| Interning.StringTable.NoDuplicateCopies | tools/clang/unittests/HLSL/ShaderOpTest.cpp:281-288 | no string is stored twice |
| Interning.InsertTwice | tools/clang/unittests/HLSL/ShaderOpTest.cpp:279-294 | inserting the same string twice returns the same handle and stores at most one string |
| Interning.InsertDistinct | tools/clang/unittests/HLSL/ShaderOpTest.cpp:279-294 | different strings get different handles, each holding its string |
| Parser.NormalizeDesc | tools/clang/unittests/HLSL/ShaderOpTest.cpp:1841-1859 | dimension, alignment, width and flags are kept. A buffer gets height, depth and mips of 1, format UNKNOWN, one sample of quality 0 and row-major layout. A texture keeps its mips, format, sample quality and layout |
| Parser.NormalizeBufferFixed | tools/clang/unittests/HLSL/ShaderOpTest.cpp:1842-1850 | two buffers that agree on width, alignment and flags normalise to the same description |
| Parser.NormalizeTexturePositive | tools/clang/unittests/HLSL/ShaderOpTest.cpp:1851-1859 | after normalising, a 1D texture has non-zero height, depth and sample count, and a 2D texture non-zero depth and sample count with its height as read |
| Parser.NormalizeKeepsNonZero | tools/clang/unittests/HLSL/ShaderOpTest.cpp:1851-1859 | a texture's non-zero height, depth and sample count are kept |
| Parser.NormalizeOtherDimensions | tools/clang/unittests/HLSL/ShaderOpTest.cpp:1841-1859 | 3D and unknown dimensions are left untouched |
| Parser.NormalizeIdempotent | tools/clang/unittests/HLSL/ShaderOpTest.cpp:1841-1859 | normalising twice is normalising once |
| Parser.ReadHeapProperties | tools/clang/unittests/HLSL/ShaderOpTest.cpp:1819-1823 | it succeeds iff all five attributes read. The heap type, page property and memory pool are as read. The node masks are UINTs that default to 0. A bad HeapType is the error returned |
| Parser.ReadResourceDesc | tools/clang/unittests/HLSL/ShaderOpTest.cpp:1825-1835 | it succeeds iff all eleven attributes read. The dimension, format, layout and flags are as read. Alignment and width are UINT64s, height and the sample counts UINTs, depth and mips UINT16s. An absent Width is 0. A bad Dimension is the error returned |
| Parser.ParseResource | tools/clang/unittests/HLSL/ShaderOpTest.cpp:1812-1913 | it succeeds iff the heap properties, the description, HeapFlags, InitialResourceState and TransitionTo all read. The result holds exactly what was read: the heap properties; the description, normalised; the heap flags and both states; the Name, Init and ReadBack attributes; and the bytes of its text. Heap-property errors come first, then description errors |
| Parser.RawFlagSpellings | tools/clang/unittests/HLSL/ShaderOpTest.cpp:1517 | Flags is RAW in any case and nothing else |
| Parser.RawFlag | tools/clang/unittests/HLSL/ShaderOpTest.cpp:1516-1518 | definition, with no contract of its own: a Flags attribute that is present, non-empty and RAW ignoring case; stated by RawFlagSpellings |
| Parser.ReadUavViewWith | tools/clang/unittests/HLSL/ShaderOpTest.cpp:1509-1550 | the view read matches the dimension. A buffer's RAW flag comes from Flags. A Texture2DArray's mip and plane slices come from their attributes |
| Parser.ReadUavViewAsWritten | tools/clang/unittests/HLSL/ShaderOpTest.cpp:1539-1544 | as written, a Texture2DArray view's plane slice always equals its mip slice |
| Parser.ReadUavView | tools/clang/unittests/HLSL/ShaderOpTest.cpp:1539-1544 | corrected, a Texture2DArray view's plane slice is the PlaneSlice attribute |
| Parser.PlaneSliceDiscrepancy | tools/clang/unittests/HLSL/ShaderOpTest.cpp:1543 | MipSlice="1" PlaneSlice="0" gives plane slice 1 as written and 0 corrected |
| Parser.PlaneSliceReadings | tools/clang/unittests/HLSL/ShaderOpTest.cpp:1540-1543 | the slice attributes of that example read as 1, 0, 0 and 0 |
| Parser.Texture2DArrayRead | tools/clang/unittests/HLSL/ShaderOpTest.cpp:1539-1544 | a Texture2DArray view is the four slice attributes read, whichever attribute supplies the plane slice |
| Parser.ReadUavDescWith | tools/clang/unittests/HLSL/ShaderOpTest.cpp:1506-1550 | it succeeds iff Format, Dimension and the view for that dimension all read. The view dimension is as read and the view is the one read for it. The format is the format read, or R32_TYPELESS for a raw buffer without one. A bad Format is the error returned |
| Parser.UavFormat | tools/clang/unittests/HLSL/ShaderOpTest.cpp:1506-1525 | a raw buffer without a Format becomes R32_TYPELESS; otherwise the format read (or its default) stays |
| Parser.KindSpellings | tools/clang/unittests/HLSL/ShaderOpTest.cpp:1559-1560 | UAV, SRV, CBV and RTV are accepted in any case |
| Parser.UnknownKinds | tools/clang/unittests/HLSL/ShaderOpTest.cpp:1559-1563 | the empty kind, DSV and UAVS are rejected |
| Parser.KnownKind | tools/clang/unittests/HLSL/ShaderOpTest.cpp:1559-1560 | definition, with no contract of its own: UAV, SRV, CBV or RTV ignoring case; stated by KindSpellings, UnknownKinds and FinishDescriptor |
| Parser.FinishDescriptor | tools/clang/unittests/HLSL/ShaderOpTest.cpp:1552-1564 | it fails with E_INVALIDARG exactly when Kind is missing or unknown. Name and ResName are back-filled from each other, so both are set or neither. Everything else is kept |
| Parser.ParseDescriptorWith | tools/clang/unittests/HLSL/ShaderOpTest.cpp:1498-1565 | it succeeds iff the view description reads and Kind is present and known. The view description, Kind and CounterName are as read. Name and ResName are each taken from the other when absent. A view error comes before the E_INVALIDARG of a bad Kind |
| Parser.ParseDescriptorAsWritten | tools/clang/unittests/HLSL/ShaderOpTest.cpp:1498-1565 | as written, a Texture2DArray descriptor's plane slice equals its mip slice |
| Parser.ParseDescriptor | tools/clang/unittests/HLSL/ShaderOpTest.cpp:1498-1565 | a parsed descriptor has a known Kind as read and both names or neither; with no Kind it fails |
| Parser.ParseDescriptors | tools/clang/unittests/HLSL/ShaderOpTest.cpp:1585-1600 | the heap keeps at most one descriptor per child, each of a known kind |
| Parser.ParseDescriptorsInOrder | tools/clang/unittests/HLSL/ShaderOpTest.cpp:1585-1600 | the children loop succeeds iff every Descriptor child parses. It then holds their descriptors in document order, other elements skipped. Otherwise its error is that of the first Descriptor child that fails |
| Parser.AllDescriptors | tools/clang/unittests/HLSL/ShaderOpTest.cpp:1591-1598 | when every child is a Descriptor element, the heap holds each child's parsed descriptor, in order |
| Parser.HeapFlags | tools/clang/unittests/HLSL/ShaderOpTest.cpp:1571-1577 | an RTV heap without Flags gets FLAG_NONE; any other heap keeps the flags read |
| Parser.ReadHeapHeader | tools/clang/unittests/HLSL/ShaderOpTest.cpp:1567-1577 | the heap attributes alone give a heap with no descriptors. It succeeds iff Flags, NodeMask, NumDescriptors and Type all read. Name and Type are as read, and the flags are HeapFlags of the flags read and the type. NodeMask and NumDescriptors are UINTs, and an absent NumDescriptors is 0 |
| Parser.ParseDescriptorHeap | tools/clang/unittests/HLSL/ShaderOpTest.cpp:1567-1600 | it succeeds iff the header and the child loop both succeed. The heap is the header with the loop's descriptors. A header error comes before any descriptor error |
| Parser.HeapFlagsDefault | tools/clang/unittests/HLSL/ShaderOpTest.cpp:1571-1577 | a heap without Flags is shader-visible (the reader's default) unless it is an RTV heap, which gets FLAG_NONE |
| Parser.HeapFlagsExplicit | tools/clang/unittests/HLSL/ShaderOpTest.cpp:1571-1577 | a heap with Flags has exactly the flags read, even for RTV |
| Parser.ParseShader | tools/clang/unittests/HLSL/ShaderOpTest.cpp:1915-1939 | it fails with E_INVALIDARG exactly when the shader has both non-empty content and a non-empty Text attribute. Name and Target are as read |
| Parser.ShaderTextSource | tools/clang/unittests/HLSL/ShaderOpTest.cpp:1921-1935 | the text is the element content when non-empty, else the Text attribute |
| Parser.ShaderEntryPoint | tools/clang/unittests/HLSL/ShaderOpTest.cpp:1919-1938 | the entry point is the EntryPoint attribute, or "main" when absent |
| Parser.GetShaderOp | tools/clang/unittests/HLSL/ShaderOpTest.cpp:1003-1010 | the first named op whose name equals the request ignoring case; none iff no op has that name |
| Parser.GetShaderOpAnyCase | tools/clang/unittests/HLSL/ShaderOpTest.cpp:1005 | requests that differ only in case find the same op |
| RootSignature.Unbreak | tools/clang/unittests/HLSL/ShaderOpTest.cpp:677 | CR and LF become blanks and nothing else changes |
| RootSignature.NulIndex | tools/clang/unittests/HLSL/ShaderOpTest.cpp:676 | the position of the first NUL, or the end |
| RootSignature.UnbreakUntilNul | tools/clang/unittests/HLSL/ShaderOpTest.cpp:675-679 | the rewrite keeps the string's length |
| RootSignature.Quoted | tools/clang/unittests/HLSL/ShaderOpTest.cpp:670-679 | the quoted text is two characters longer than the root signature |
| RootSignature.UnbreakInPlace | tools/clang/unittests/HLSL/ShaderOpTest.cpp:675-679 | the buffer loop replaces line breaks up to the first NUL, in place |
| RootSignature.QuoteRootSignature | tools/clang/unittests/HLSL/ShaderOpTest.cpp:664-679 | a missing root signature is E_INVALIDARG; otherwise the result is the quoted, unbroken text |
| RootSignature.QuotedShape | tools/clang/unittests/HLSL/ShaderOpTest.cpp:670-679 | quotes at both ends, each character in between unbroken, and no CR or LF anywhere |
| RootSignature.QuotedPlain | tools/clang/unittests/HLSL/ShaderOpTest.cpp:670-674 | a signature without line breaks is just wrapped in quotes |
| RootSignature.QuotedTwoLines | tools/clang/unittests/HLSL/ShaderOpTest.cpp:676-678 | "A\r\nB" becomes "\"A  B\"" |
| EngineRules.InitKindOf | tools/clang/unittests/HLSL/ShaderOpTest.cpp:533-536 | byname, zero and frombytes in any case select the three initialisers, and anything else none |
| EngineRules.InitKindSpellings | tools/clang/unittests/HLSL/ShaderOpTest.cpp:533-535 | "ByName", "ZERO" and "FromBytes" are recognised; no Init and "bytes" are not |
| EngineRules.LinearSize | tools/clang/unittests/HLSL/ShaderOpTest.cpp:540-547 | a buffer's size is its Width; a texture's size is width × height × format size, failing when the format has no size |
| EngineRules.ZeroBytes | tools/clang/unittests/HLSL/ShaderOpTest.cpp:548-550 | n zero bytes |
| EngineRules.PrepareInit | tools/clang/unittests/HLSL/ShaderOpTest.cpp:539-568 | preparing initial data succeeds iff the resource has a linear size |
| EngineRules.PrepareZero | tools/clang/unittests/HLSL/ShaderOpTest.cpp:548-550 | zero-init uploads the linear size in zeros and keeps the width |
| EngineRules.PrepareByName | tools/clang/unittests/HLSL/ShaderOpTest.cpp:551-556 | by-name init uploads what the callback returns; a buffer takes its width from that |
| EngineRules.PrepareFromBytes | tools/clang/unittests/HLSL/ShaderOpTest.cpp:557-567 | from-bytes init uploads the parsed bytes; a zero width becomes the byte count for a buffer and the byte count over the format size for a 1D texture |
| EngineRules.PrepareUnsizedTexture | tools/clang/unittests/HLSL/ShaderOpTest.cpp:545-546 | initialising a texture whose format has no size is E_INVALIDARG |
| EngineRules.RootSlot | tools/clang/unittests/HLSL/ShaderOpTest.cpp:877 | a zero Index means the root value's position |
| EngineRules.RootSlotsByPosition | tools/clang/unittests/HLSL/ShaderOpTest.cpp:877 | with no indices given, root values bind to their positions |
| EngineRules.RootViewKindOf | tools/clang/unittests/HLSL/ShaderOpTest.cpp:887-920 | a resource bound for VERTEX_AND_CONSTANT_BUFFER binds as a CBV, for UNORDERED_ACCESS as a UAV |
| EngineRules.RootViewKindOthers | tools/clang/unittests/HLSL/ShaderOpTest.cpp:897-901 | every other state binds as an SRV |
| EngineRules.RowPitch | tools/clang/unittests/HLSL/ShaderOpTest.cpp:334-336 | the row pitch is a UINT |
| EngineRules.RowPitchAligned | tools/clang/unittests/HLSL/ShaderOpTest.cpp:334-336 | without wrap-around the pitch is the smallest multiple of the alignment at or above 4 × width |
| EngineRules.RowPitchExample | tools/clang/unittests/HLSL/ShaderOpTest.cpp:334-336 | widths 100 and 64 give pitches 512 and 256 |
| EngineRules.RowPitchWraps | tools/clang/unittests/HLSL/ShaderOpTest.cpp:334-336 | for widths 2^30 and 2^30 - 1 the 32-bit arithmetic wraps to pitch 0 |
| EngineRules.VertexStride | tools/clang/unittests/HLSL/ShaderOpTest.cpp:831-834 | the stride is a UINT, and exists iff every input element's format has a size; otherwise it is E_INVALIDARG |
| EngineRules.VertexStrideSum | tools/clang/unittests/HLSL/ShaderOpTest.cpp:831-834 | the stride is the sum of the format sizes modulo 2^32 |
| EngineRules.VertexStrideExample | tools/clang/unittests/HLSL/ShaderOpTest.cpp:831-834 | two R32G32B32A32_FLOAT elements make a 32-byte stride |
| EngineRules.VertexCount | tools/clang/unittests/HLSL/ShaderOpTest.cpp:839-841 | the number of whole strides in the UINT buffer size; a zero stride divides by zero |
| EngineRules.ShaderVisible | tools/clang/unittests/HLSL/ShaderOpTest.cpp:768 | definition, with no contract of its own: the SHADER_VISIBLE bit of a heap's flags; stated by VisibleHeaps and HeapBindingVisible |
| EngineRules.VisibleHeaps | tools/clang/unittests/HLSL/ShaderOpTest.cpp:766-771 | exactly the shader-visible heaps are kept, each one from the list |
| EngineRules.VisibleHeapsAppend | tools/clang/unittests/HLSL/ShaderOpTest.cpp:767-771 | filtering a concatenation is concatenating the filtered parts, so order is kept |
| ResourceSteps.CreationCommands | tools/clang/unittests/HLSL/ShaderOpTest.cpp:570-643 | creating a resource first records its committed resource with the description and initial state |
| ResourceSteps.CreationBarrier | tools/clang/unittests/HLSL/ShaderOpTest.cpp:616-643 | a barrier is recorded, as the last call, iff TransitionTo differs from the initial state; a readback buffer is created iff ReadBack |
| ResourceSteps.Initialise | tools/clang/unittests/HLSL/ShaderOpTest.cpp:530-568 | without Init nothing is uploaded. With Init, it fails exactly when there is no linear size. Only Width may change, to the prepared width, and the upload is the prepared bytes |
| ResourceSteps.ProgressStep | tools/clang/unittests/HLSL/ShaderOpTest.cpp:529-644 | one pass of the resource loop keeps its invariant: already-created names are skipped, and a new name gets an entry pointing at its resource in its TransitionTo state |
| ResourceSteps.FailedStep | tools/clang/unittests/HLSL/ShaderOpTest.cpp:529-644 | a failing resource leaves the earlier resources and entries as they were |
| ResourceSteps.CreateStep | tools/clang/unittests/HLSL/ShaderOpTest.cpp:529-643 | one resource of the loop keeps the number of resources and that resource's name. A name that already has an entry leaves the state unchanged. A passing step gives the name an entry, keeps every earlier entry name and only appends calls. A step that fails from a passing state fails with E_INVALIDARG |
| ResourceSteps.CreateStepCases | tools/clang/unittests/HLSL/ShaderOpTest.cpp:529-643 | the three cases of one resource: skipped; a failed preparation that changes only the outcome; or the prepared resource put in its place and committed. That last one passes iff it is not a readback without a size, with its entry in the TransitionTo state and its creation calls appended. Otherwise the entry stays in the initial state after one CreateCommittedResource |
| ResourceSteps.CreateStepKeepsOthers | tools/clang/unittests/HLSL/ShaderOpTest.cpp:529-643 | one resource of the loop leaves every other resource as it was |
| ResourceSteps.ResourcesFrom | tools/clang/unittests/HLSL/ShaderOpTest.cpp:529-644 | the loop from resource k on, ending at the first failure, keeps the number of resources |
| ResourceSteps.ResourcesFromEnd | tools/clang/unittests/HLSL/ShaderOpTest.cpp:529 | past the last resource the loop changes nothing |
| ResourceSteps.ResourcesFromNext | tools/clang/unittests/HLSL/ShaderOpTest.cpp:529-644 | the loop from k is one resource and then the loop from k + 1, and a failing resource ends it |
| ResourceSteps.ResourcesFromKeepsBefore | tools/clang/unittests/HLSL/ShaderOpTest.cpp:529-644 | the loop never changes a resource it has already passed |
| ResourceSteps.CreateStepSeen | tools/clang/unittests/HLSL/ShaderOpTest.cpp:530 | a resource before j leaves j as it was, and j's name stays already seen |
| ResourceSteps.ResourcesFromSkipsSeen | tools/clang/unittests/HLSL/ShaderOpTest.cpp:530 | a resource whose name already has an entry, or belongs to an earlier resource, comes out of the loop exactly as it went in: it is skipped, not prepared or back-filled again |
| ResourceSteps.CreateStepProgress | tools/clang/unittests/HLSL/ShaderOpTest.cpp:529-644 | one resource of the loop keeps the loop invariant, or on failure what the loop promises |
| ResourceSteps.ResourcesFromProgress | tools/clang/unittests/HLSL/ShaderOpTest.cpp:529-644 | the loop from k keeps the invariant to the end |
| ResourceSteps.ResourcesFromKept | tools/clang/unittests/HLSL/ShaderOpTest.cpp:529-644 | the whole loop at most back-fills each resource and keeps every existing entry. When it passes, every name has an entry and each new entry belongs to the first resource of its name |
| ResourceSteps.ResourceByName | tools/clang/unittests/HLSL/ShaderOpTest.cpp:374 | the first resource of that name, or none iff no resource has it |
| ResourceSteps.CreatedFirstByName | tools/clang/unittests/HLSL/ShaderOpTest.cpp:530-575 | an entry created by the loop points at the first resource of its name |
| ResourceSteps.WithEntry | tools/clang/unittests/HLSL/ShaderOpTest.cpp:381 | map indexing adds a default entry for a missing name and changes no other entry |
| DescriptorSteps.Counter | tools/clang/unittests/HLSL/ShaderOpTest.cpp:387 | a counter resource is used iff the CounterName is set and non-empty |
| DescriptorSteps.ViewKindOf | tools/clang/unittests/HLSL/ShaderOpTest.cpp:385-406 | definition, with no contract of its own: the view a Kind selects, ignoring case; stated by ViewKindOfCases |
| DescriptorSteps.ViewKindOfCases | tools/clang/unittests/HLSL/ShaderOpTest.cpp:385-406 | UAV, SRV, RTV and CBV in any case select their view; unknown kinds select none |
| DescriptorSteps.KindOf | tools/clang/unittests/HLSL/ShaderOpTest.cpp:385 | a descriptor without Kind selects no view |
| DescriptorSteps.DescriptorEntriesKeys | tools/clang/unittests/HLSL/ShaderOpTest.cpp:381-388 | creating a view adds entries only for its resource and, for a UAV, its counter, and keeps the others |
| DescriptorSteps.DescriptorOutcome | tools/clang/unittests/HLSL/ShaderOpTest.cpp:373-406 | definition, with no contract of its own: whether a descriptor passes and with which error; stated by DescriptorOutcomeCases |
| DescriptorSteps.DescriptorOutcomeCases | tools/clang/unittests/HLSL/ShaderOpTest.cpp:373-406 | a missing resource is E_INVALIDARG; a missing Kind, or a CBV over an entry with no resource, is a null dereference; anything else passes |
| DescriptorSteps.CreatedFirstViewable | tools/clang/unittests/HLSL/ShaderOpTest.cpp:374-381 | a name the resource loop created can be viewed |
| DescriptorSteps.DescriptorOfViewable | tools/clang/unittests/HLSL/ShaderOpTest.cpp:373-406 | a descriptor with a Kind over a created resource passes |
| DescriptorSteps.ViewCommandsShape | tools/clang/unittests/HLSL/ShaderOpTest.cpp:385-406 | one view call exactly for a known kind; a UAV passes its counter iff it has one |
| DescriptorSteps.Counted | tools/clang/unittests/HLSL/ShaderOpTest.cpp:362-364 | only NumDescriptors may change. A non-zero NumDescriptors is kept. A zero one becomes enough for every descriptor of the heap |
| DescriptorSteps.DescriptorStep | tools/clang/unittests/HLSL/ShaderOpTest.cpp:373-412 | the step's outcome is the descriptor's outcome; a passing descriptor has a Kind and maps its resource name to its own handle, leaving other descriptor data as it was |
| DescriptorSteps.RunDescriptors | tools/clang/unittests/HLSL/ShaderOpTest.cpp:373-413 | definition of a heap's descriptor loop, with no contract of its own; stated by RunKeeps, RunValid, RunFailureSticks, RunHandles and RunCovers |
| DescriptorSteps.Offset | tools/clang/unittests/HLSL/ShaderOpTest.cpp:371-372 | the first descriptor sits at the heap start |
| DescriptorSteps.OffsetNext | tools/clang/unittests/HLSL/ShaderOpTest.cpp:411-412 | each descriptor advances the handle by the increment size |
| DescriptorSteps.OffsetIsProduct | tools/clang/unittests/HLSL/ShaderOpTest.cpp:370-412 | the k-th descriptor sits at k × the increment size |
| DescriptorSteps.DescriptorStepKeeps | tools/clang/unittests/HLSL/ShaderOpTest.cpp:373-412 | one descriptor keeps every resource entry and every descriptor name, and only appends to the log |
| DescriptorSteps.RunKeeps | tools/clang/unittests/HLSL/ShaderOpTest.cpp:373-413 | so does a heap's whole descriptor loop |
| DescriptorSteps.DescriptorStepValid | tools/clang/unittests/HLSL/ShaderOpTest.cpp:373-412 | one descriptor keeps entries pointing at resources of their name and handles at created heaps |
| DescriptorSteps.RunValid | tools/clang/unittests/HLSL/ShaderOpTest.cpp:373-413 | so does a heap's whole descriptor loop |
| DescriptorSteps.RunFailureSticks | tools/clang/unittests/HLSL/ShaderOpTest.cpp:378 | after the first failing descriptor nothing more happens |
| DescriptorSteps.ViewsFromRun | tools/clang/unittests/HLSL/ShaderOpTest.cpp:373-413 | running the remaining descriptors from any point finishes the whole loop |
| DescriptorSteps.RunStepData | tools/clang/unittests/HLSL/ShaderOpTest.cpp:408-410 | each passing descriptor maps its resource name to its own handle |
| DescriptorSteps.RunHandles | tools/clang/unittests/HLSL/ShaderOpTest.cpp:408-412 | a passing loop leaves exactly the handle assignments of its descriptors, in order |
| DescriptorSteps.RunCovers | tools/clang/unittests/HLSL/ShaderOpTest.cpp:410 | every descriptor's resource has descriptor data after a passing loop |
| DescriptorSteps.LastHandleWins | tools/clang/unittests/HLSL/ShaderOpTest.cpp:410 | of several descriptors over one resource, the last one's handle is kept |
| DescriptorSteps.LastDescriptorWins | tools/clang/unittests/HLSL/ShaderOpTest.cpp:408-412 | after a passing loop, a resource's descriptor data holds the handle of its last descriptor |
| DescriptorSteps.RunOfViewable | tools/clang/unittests/HLSL/ShaderOpTest.cpp:373-413 | a heap whose descriptors all have a Kind and a created resource passes |
| DescriptorSteps.HeapStart | tools/clang/unittests/HLSL/ShaderOpTest.cpp:365 | creating a heap records it with its counted size and changes nothing else |
| DescriptorSteps.CountedHeaps | tools/clang/unittests/HLSL/ShaderOpTest.cpp:360-364 | counting keeps the number of heaps |
| DescriptorSteps.CountedHeapsNext | tools/clang/unittests/HLSL/ShaderOpTest.cpp:362-364 | one more heap counted changes just that heap |
| DescriptorSteps.CountedHeapsDescriptors | tools/clang/unittests/HLSL/ShaderOpTest.cpp:362-364 | counting keeps every heap's descriptors and name |
| DescriptorSteps.HeapNamesNext | tools/clang/unittests/HLSL/ShaderOpTest.cpp:367 | each created heap's name maps to its position |
| DescriptorSteps.LastHeapWins | tools/clang/unittests/HLSL/ShaderOpTest.cpp:367 | of heaps sharing a name, the last one is found by name |
| DescriptorSteps.HeapNamesOthers | tools/clang/unittests/HLSL/ShaderOpTest.cpp:367 | names no heap has keep their old mapping |
| DescriptorSteps.AddHeap | tools/clang/unittests/HLSL/ShaderOpTest.cpp:362-367 | adding a heap keeps the number of heap descriptions |
| DescriptorSteps.AddHeaps | tools/clang/unittests/HLSL/ShaderOpTest.cpp:360-367 | adding k heaps creates exactly k heaps |
| DescriptorSteps.AddHeapsTable | tools/clang/unittests/HLSL/ShaderOpTest.cpp:360-367 | after k heaps, the first k are counted and created in order, and each is found by name |
| DescriptorSteps.AddHeapOfTable | tools/clang/unittests/HLSL/ShaderOpTest.cpp:360-367 | adding the next heap extends that description by one |
| DescriptorSteps.HeapStep | tools/clang/unittests/HLSL/ShaderOpTest.cpp:360-413 | one pass of the heap loop adds that heap to the tables |
| DescriptorSteps.HeapsFrom | tools/clang/unittests/HLSL/ShaderOpTest.cpp:359-414 | the heap loop keeps the number of heap descriptions |
| DescriptorSteps.HeapsFromPass | tools/clang/unittests/HLSL/ShaderOpTest.cpp:359-414 | a passing heap loop has created, counted and named every heap |
| CommandSteps.HeapFlags | tools/clang/unittests/HLSL/ShaderOpTest.cpp:768 | the flags of each created heap, in order |
| CommandSteps.HeapBinding | tools/clang/unittests/HLSL/ShaderOpTest.cpp:762-774 | binding heaps records at most one SetDescriptorHeaps |
| CommandSteps.HeapBindingVisible | tools/clang/unittests/HLSL/ShaderOpTest.cpp:762-774 | nothing is recorded iff no heap is shader-visible; otherwise exactly the visible heaps are bound |
| CommandSteps.RootBinding | tools/clang/unittests/HLSL/ShaderOpTest.cpp:876-930 | a root value with a resource name binds a view of the kind its TransitionTo selects, and fails with E_INVALIDARG for an unknown name. A heap name binds that heap as a table. Otherwise nothing is bound |
| CommandSteps.RootBindings | tools/clang/unittests/HLSL/ShaderOpTest.cpp:873-932 | definition of the root-value loop, with no contract of its own; stated by RootBindingsFacts, RootBindingsFailureSticks and RootsNext |
| CommandSteps.RootBindingsFacts | tools/clang/unittests/HLSL/ShaderOpTest.cpp:873-932 | binding the root values passes iff each one does, with at most one call each; a failure is the error of some root value |
| CommandSteps.RootBindingsFailureSticks | tools/clang/unittests/HLSL/ShaderOpTest.cpp:880-883 | after the first failing root value nothing more is bound |
| CommandSteps.RootsFromBindings | tools/clang/unittests/HLSL/ShaderOpTest.cpp:875-931 | binding the remaining root values after a passing prefix ends with the outcome of binding them all, and, on success, the same calls |
| CommandSteps.RootsNext | tools/clang/unittests/HLSL/ShaderOpTest.cpp:875-931 | binding from k equals binding one value and then from k + 1 |
| CommandSteps.Viewport | tools/clang/unittests/HLSL/ShaderOpTest.cpp:791-806 | no render targets means no viewport; otherwise the first target must name a resource, or the viewport dereferences null |
| CommandSteps.TargetStep | tools/clang/unittests/HLSL/ShaderOpTest.cpp:812-818 | definition of one render target, with no contract of its own; stated by TargetStepSame and TargetStepKeeps |
| CommandSteps.TargetStepSame | tools/clang/unittests/HLSL/ShaderOpTest.cpp:812-818 | one render target changes no entry beyond its state and keeps descriptor data pointing at entries |
| CommandSteps.TargetsFromSame | tools/clang/unittests/HLSL/ShaderOpTest.cpp:811-819 | so does the whole target loop |
| CommandSteps.TargetStepKeeps | tools/clang/unittests/HLSL/ShaderOpTest.cpp:812-818 | one render target keeps the loop invariant: handles in order, each target in RENDER_TARGET state |
| CommandSteps.TargetsFromPass | tools/clang/unittests/HLSL/ShaderOpTest.cpp:809-819 | the target loop passes iff there are at most eight targets and each has descriptor data; otherwise it writes past rtvHandles or dereferences a default descriptor entry |
| CommandSteps.TargetsFromSoFar | tools/clang/unittests/HLSL/ShaderOpTest.cpp:811-819 | a passing target loop collects every target's handle, in order, and leaves every target in RENDER_TARGET state |
| CommandSteps.TargetsFromLog | tools/clang/unittests/HLSL/ShaderOpTest.cpp:815-817 | a passing target loop only appends, one barrier per target |
| CommandSteps.DrawCalls | tools/clang/unittests/HLSL/ShaderOpTest.cpp:828-846 | drawing needs a stride, a non-zero stride and a created VBuffer. It then records the vertex buffer view and one instance of the whole vertex count |
| CommandSteps.VertexDraw | tools/clang/unittests/HLSL/ShaderOpTest.cpp:828-846 | looking up VBuffer adds its default entry; the draw passes iff its calls exist, and they are appended |
| CommandSteps.GraphicsCalls | tools/clang/unittests/HLSL/ShaderOpTest.cpp:786-849 | definition of the graphics half of the command list, with no contract of its own; stated by GraphicsCallsFacts |
| CommandSteps.GraphicsCallsFacts | tools/clang/unittests/HLSL/ShaderOpTest.cpp:786-849 | more than eight targets fail. A passing graphics list appends the target barriers, then OMSetRenderTargets with every target's handle in order, a clear, the vertex buffer and the draw. Every target ends in RENDER_TARGET state |
| CommandSteps.CopyCall | tools/clang/unittests/HLSL/ShaderOpTest.cpp:329-343 | a buffer is copied whole; a texture is copied with its UINT width, height and aligned row pitch |
| CommandSteps.CopyStep | tools/clang/unittests/HLSL/ShaderOpTest.cpp:322-343 | definition of one resource of the copy loop, with no contract of its own; stated by CopyStepKeeps and CopyStepFacts |
| CommandSteps.CopiesFrom | tools/clang/unittests/HLSL/ShaderOpTest.cpp:322-344 | definition of the copy loop, with no contract of its own; stated by CopiesFromKeeps, CopiesFromSource and CopiesOfCreated |
| CommandSteps.CopyStepKeeps | tools/clang/unittests/HLSL/ShaderOpTest.cpp:322-343 | copying one resource changes only that resource's entry and only appends calls |
| CommandSteps.CopyStepFacts | tools/clang/unittests/HLSL/ShaderOpTest.cpp:322-343 | a resource that is not read back is skipped. A read-back one moves to COPY_SOURCE, and its copy passes iff its entry has a resource |
| CommandSteps.CopiesFromKeeps | tools/clang/unittests/HLSL/ShaderOpTest.cpp:322-344 | the copy loop keeps every entry's resource and only appends calls |
| CommandSteps.CopiesFromSource | tools/clang/unittests/HLSL/ShaderOpTest.cpp:322-344 | after a passing copy loop every read-back resource is in COPY_SOURCE |
| CommandSteps.CopiesOfCreated | tools/clang/unittests/HLSL/ShaderOpTest.cpp:322-344 | the copy loop passes when every read-back resource has an entry with a resource |
| Engine.ShaderOpTest.constructor | tools/clang/unittests/HLSL/ShaderOpTest.cpp:856-857 | a fresh test holds the op's resources and heaps, no data, no heaps and no device |
| Engine.ShaderOpTest.CreateDevice | tools/clang/unittests/HLSL/ShaderOpTest.cpp:424-458 | afterwards there is a device and a new fence whose next value is 1 |
| Engine.ShaderOpTest.SubmitAndWait | tools/clang/unittests/HLSL/ShaderOpTest.cpp:217-241 | submitting signals the current fence value and increments it |
| Engine.ShaderOpTest.Commit | tools/clang/unittests/HLSL/ShaderOpTest.cpp:570-643 | the entry starts in the initial state. Creation records the resource's calls and ends in TransitionTo. Sizing the readback buffer of a texture whose format has no size fails after the entry exists |
| Engine.ShaderOpTest.CreateResource | tools/clang/unittests/HLSL/ShaderOpTest.cpp:529-643 | the state after resource i is CreateStep of the state before, log included (its cases are CreateStepCases) |
| Engine.ShaderOpTest.CreateEach | tools/clang/unittests/HLSL/ShaderOpTest.cpp:529-644 | the loop leaves exactly the outcome, resources, entries and log of ResourcesFrom from resource 0 |
| Engine.ShaderOpTest.CreateResources | tools/clang/unittests/HLSL/ShaderOpTest.cpp:519-661 | the outcome, resources, entries and log are exactly those of ResourcesFrom over all resources, followed on success by one submission on the fence. On success every resource's name has an entry and every new entry points at the first resource of its name. Earlier entries are kept, and a failure leaves the fence as it was |
| Engine.ShaderOpTest.CreateDescriptor | tools/clang/unittests/HLSL/ShaderOpTest.cpp:373-412 | one descriptor of the heap loop, as DescriptorStep states |
| Engine.ShaderOpTest.LookUpEntry | tools/clang/unittests/HLSL/ShaderOpTest.cpp:381 | map indexing adds the default entry |
| Engine.ShaderOpTest.SetDescriptorData | tools/clang/unittests/HLSL/ShaderOpTest.cpp:408-410 | the resource's descriptor data becomes the new handle |
| Engine.ShaderOpTest.CreateHeap | tools/clang/unittests/HLSL/ShaderOpTest.cpp:360-413 | one heap of the heap loop, as HeapStep states |
| Engine.ShaderOpTest.CreateViews | tools/clang/unittests/HLSL/ShaderOpTest.cpp:370-413 | a heap's descriptor loop, as the descriptor run states |
| Engine.ShaderOpTest.CreateDescriptorHeaps | tools/clang/unittests/HLSL/ShaderOpTest.cpp:359-414 | the heap loop as HeapsFrom states; on success every heap is counted, created in order and found by its last name |
| Engine.ShaderOpTest.SetDescriptorHeaps | tools/clang/unittests/HLSL/ShaderOpTest.cpp:762-774 | records the shader-visible heaps, or nothing |
| Engine.ShaderOpTest.ShaderVisibleHeaps | tools/clang/unittests/HLSL/ShaderOpTest.cpp:766-771 | the filter loop keeps exactly the shader-visible heaps, in order |
| Engine.ShaderOpTest.SetRootValues | tools/clang/unittests/HLSL/ShaderOpTest.cpp:873-932 | passes iff every root value binds. On success it appends their calls; on failure it returns the first error |
| Engine.ShaderOpTest.BindRootValue | tools/clang/unittests/HLSL/ShaderOpTest.cpp:876-930 | one root value is bound as RootBinding states |
| Engine.ShaderOpTest.BindRenderTargets | tools/clang/unittests/HLSL/ShaderOpTest.cpp:809-819 | the render-target loop, as the target run states |
| Engine.ShaderOpTest.BindTarget | tools/clang/unittests/HLSL/ShaderOpTest.cpp:812-818 | one render target: its handle, and its barrier to RENDER_TARGET |
| Engine.ShaderOpTest.RecordGraphics | tools/clang/unittests/HLSL/ShaderOpTest.cpp:786-849 | the graphics half of the command list, as GraphicsCalls states |
| Engine.ShaderOpTest.DrawVertices | tools/clang/unittests/HLSL/ShaderOpTest.cpp:828-846 | the vertex buffer and draw, as VertexDraw states |
| Engine.ShaderOpTest.RunCommandList | tools/clang/unittests/HLSL/ShaderOpTest.cpp:776-854 | a failing root value fails the list. Compute binds heaps and root values and then dispatches. Graphics records the graphics calls. A passing list is submitted on the fence |
| Engine.ShaderOpTest.CopyBackResources | tools/clang/unittests/HLSL/ShaderOpTest.cpp:316-348 | on success every read-back resource is in COPY_SOURCE and the copies are submitted on the fence; a failure leaves the fence as it was |
| Engine.ShaderOpTest.CopyBack | tools/clang/unittests/HLSL/ShaderOpTest.cpp:322-343 | one resource of the copy loop, as CopyStep states |
| Engine.ShaderOpTest.RunShaderOp | tools/clang/unittests/HLSL/ShaderOpTest.cpp:856-866 | on success the fence has signalled 1, 2 and 3 and has next value 4. Every heap has been created, every read-back resource is in COPY_SOURCE, and the resources are those the resource loop left |
| Engine.ShaderOpTest.RunAfterResources | tools/clang/unittests/HLSL/ShaderOpTest.cpp:860-865 | the phases after the resources keep the resources. On success the fence has signalled 2 and 3 after 1, every heap has been created, and every read-back resource is in COPY_SOURCE |
| Engine.VertexStrideOf | tools/clang/unittests/HLSL/ShaderOpTest.cpp:831-834 | the stride loop computes the UINT sum of the format sizes, or the first size error |

## Left out

- Device creation (adapter choice, WARP, device and fence creation failure): every device call is taken to succeed, and the device is the command log.
- CreatePipelineState, CreateShaders, CreateCommandList and the compile-and-create half of CreateRootSignature: these are calls into the shader compiler and the device. Only the quoting of the root signature is modelled.
- The query heap, the query readback buffer and the BeginQuery/EndQuery/ResolveQueryData calls: they hold no decision of the bookkeeping.
- SetPipelineState, SetComputeRootSignature/SetGraphicsRootSignature and IASetPrimitiveTopology: their arguments are fixed, so they are not logged.
- The viewport's MaxDepth, the clear colour and `wcstof`: floating point is left out. The four bytes of each initial value come from a parameter `encode`, and the viewport records only its width and height.
- The by-name initialiser `m_InitCallbackFn` is a parameter, as are the descriptor handle increment sizes (`GetDescriptorHandleIncrementSize`).
- Interning.StringTable.Insert: strings are modelled as wide text throughout. The source interns every attribute value through `CW2A`, which converts to the ANSI code page and writes '?' for a character that code page cannot hold. So two names that differ only in such characters become one string, one handle and one resource or descriptor entry in the source, while the model keeps them apart. The wide-string overload, which only converts and calls the narrow insert, is not modelled separately.
- Lookups.TargetUsesDxil: compares characters as Unicode code points. The source compares a signed `char` of the converted target with '6', so a non-ASCII fourth character, negative as a `char`, gives false in the source, where the model may give true.
- The XML reader: the model starts from elements already read into attribute maps and text nodes. The same goes for reading the whole shader-op set, the input-element and render-target lists, and the log messages.
- GetReadBackData, SetupRenderTarget, PresentRenderTarget and object names (SetObjectName): they are I/O or cosmetic.
- ShaderOpTest.h is not part of this model. `ShaderOp::GetResourceByName` is modelled as the first resource with the name, and `IsCompute` as a flag the test is built with.
- CommandSteps.TargetsFromPass: a render target without descriptor data fails with a null dereference. The default entry that `m_DescriptorData[rt]` would insert before that is not recorded.
- Engine.ShaderOpTest.SetRootValues: on a failing root value the contract states the error but not the calls recorded before it, because the command list is abandoned with the exception.
- CommandSteps.RootsFromBindings: on failure it ties only the outcome to RootBindings, not the log.
- EngineRules.LinearSize: the 64-bit product Width × Height × format size is not wrapped. The 32-bit truncations the source performs are modelled in the row pitch, the vertex stride and the vertex buffer size. The corrected sizes are used too: formats 20 to 22 count 8 bytes, where the source counts 4; every other format agrees (Lookups.ByteSizeAgreesOutsideX24).
- Attributes.ReadAttrUInt64: `errno` is not cleared before `_wtol`. A stale ERANGE, for example one left by `wcstof` on "1e39", makes a later read fail in the source but not in the model.
- ByteInit.InitBytes: uses the corrected classifier, so "inf" and "+inf" give +infinity and "-inf" gives -infinity, the reverse of the source; every other literal agrees (ByteInit.ClassifyDiffersOnInfinities).
- ByteInit.AppendInitText: uses the corrected classifier, so "inf" and "+inf" give +infinity and "-inf" gives -infinity, the reverse of the source; every other literal agrees (ByteInit.ClassifyDiffersOnInfinities).
- ByteInit.InitBytesOfTexts: inherits the infinities of ByteInit.AppendInitText.
- Parser.ReadResourceDesc: reads Format through the corrected strip: a Format that starts with "DXGI_FORMAT_" is accepted, where the source rejects it, and a Format equal to its own attribute name is read, where the source reads out of bounds; every other text agrees (Attributes.ReadAttrEnumFormatAgrees), and so do the other enumerations (Attributes.ReadAttrEnumNoPrefixAgrees).
- Parser.ParseResource: inherits the Format departure of Parser.ReadResourceDesc and the infinities of ByteInit.AppendInitText.
- Parser.ReadUavDescWith: reads Format through the corrected strip, with the same departure as Parser.ReadResourceDesc.
- Parser.ParseDescriptorWith: inherits the Format departure of Parser.ReadUavDescWith.
- Parser.ParseDescriptorAsWritten: reads the plane slice from "MipSlice" as the source does, but its Format still goes through the corrected strip.
- Parser.ParseDescriptor: inherits the Format departure. It also reads a Texture2DArray plane slice from "PlaneSlice", where the source reads "MipSlice"; every other view agrees (Parser.Texture2DArrayRead).
- Parser.ParseDescriptors: inherits the departures of Parser.ParseDescriptor.
- Parser.ParseDescriptorsInOrder: inherits the departures of Parser.ParseDescriptor.
- Parser.AllDescriptors: inherits the departures of Parser.ParseDescriptor.
- Parser.ParseDescriptorHeap: inherits the departures of Parser.ParseDescriptor.
- EngineRules.PrepareInit: sizes textures with the corrected table: formats 20 to 22 count 8 bytes, where the source counts 4; every other format agrees (Lookups.ByteSizeAgreesOutsideX24).
- EngineRules.PrepareZero: sizes textures with the corrected table: formats 20 to 22 count 8 bytes, where the source counts 4; every other format agrees (Lookups.ByteSizeAgreesOutsideX24).
- EngineRules.PrepareFromBytes: sizes textures with the corrected table: formats 20 to 22 count 8 bytes, where the source counts 4; every other format agrees (Lookups.ByteSizeAgreesOutsideX24).
- EngineRules.VertexStride: sums the corrected sizes: formats 20 to 22 count 8 bytes, where the source counts 4; every other format agrees (Lookups.ByteSizeAgreesOutsideX24).
- EngineRules.VertexStrideSum: sums the corrected sizes: formats 20 to 22 count 8 bytes, where the source counts 4; every other format agrees (Lookups.ByteSizeAgreesOutsideX24).
- Engine.VertexStrideOf: sums the corrected sizes: formats 20 to 22 count 8 bytes, where the source counts 4; every other format agrees (Lookups.ByteSizeAgreesOutsideX24).
- CommandSteps.DrawCalls: takes the stride from the corrected sizes (formats 20 to 22 count 8 bytes, where the source counts 4; every other format agrees (Lookups.ByteSizeAgreesOutsideX24)). When the stride is 0, the source records IASetVertexBuffers before it divides by zero; the model records no call for a failed draw.
- Engine.ShaderOpTest.DrawVertices: inherits both departures of CommandSteps.DrawCalls.
- Engine.ShaderOpTest.Commit: sizes uploads with the corrected table: formats 20 to 22 count 8 bytes, where the source counts 4; every other format agrees (Lookups.ByteSizeAgreesOutsideX24).
- Engine.ShaderOpTest.CreateResources: inherits the sizes of Engine.ShaderOpTest.Commit.
- EngineRules.PrepareByName: sizes the zero bytes handed to the callback with the corrected table: formats 20 to 22 count 8 bytes, where the source counts 4; every other format agrees (Lookups.ByteSizeAgreesOutsideX24).
- ResourceSteps.Initialise: prepares through EngineRules.PrepareInit, so its linear size and its back-filled width use the corrected table: formats 20 to 22 count 8 bytes, where the source counts 4; every other format agrees (Lookups.ByteSizeAgreesOutsideX24).
- ResourceSteps.ProgressStep: is stated over ResourceSteps.Initialise and inherits its sizes.
- ResourceSteps.FailedStep: is stated over ResourceSteps.Initialise and inherits its sizes.
- ResourceSteps.CreatedFirstByName: is stated over ResourceSteps.Initialise and inherits its sizes.
- ResourceSteps.CreateStep: prepares and sizes each resource with the corrected table: formats 20 to 22 count 8 bytes, where the source counts 4; every other format agrees (Lookups.ByteSizeAgreesOutsideX24).
- ResourceSteps.CreateStepCases: inherits the sizes of ResourceSteps.CreateStep.
- ResourceSteps.ResourcesFrom: inherits the sizes of ResourceSteps.CreateStep, and so do the lemmas about the loop stated over it.
- ResourceSteps.CreateStepProgress: inherits the sizes of ResourceSteps.CreateStep.
- ResourceSteps.ResourcesFromProgress: inherits the sizes of ResourceSteps.CreateStep.
- ResourceSteps.ResourcesFromKept: inherits the sizes of ResourceSteps.CreateStep.
- CommandSteps.VertexDraw: inherits both departures of CommandSteps.DrawCalls: the corrected stride, and no call recorded for a failed draw.
- CommandSteps.GraphicsCalls: inherits both departures of CommandSteps.DrawCalls.
- CommandSteps.GraphicsCallsFacts: inherits both departures of CommandSteps.DrawCalls.
- Engine.ShaderOpTest.CreateResource: inherits the sizes of ResourceSteps.CreateStep.
- Engine.ShaderOpTest.CreateEach: inherits the sizes of ResourceSteps.CreateStep.
- Engine.ShaderOpTest.RecordGraphics: inherits both departures of CommandSteps.DrawCalls.
- Engine.ShaderOpTest.RunCommandList: inherits both departures of CommandSteps.DrawCalls in a graphics op.
- Engine.ShaderOpTest.RunAfterResources: inherits the stride of CommandSteps.DrawCalls.
- Engine.ShaderOpTest.RunShaderOp: inherits the sizes of Engine.ShaderOpTest.Commit and the stride of CommandSteps.DrawCalls. Its contract states the fence, the heaps, the copy-back states and the resources the resource loop left, but not the log or the resource entries, which the later phases go on to change; each phase's own contract states those.
- The descriptor loop's multi-heap consequence is left out: the lemma that every heap passes when all descriptors are viewable is proved per heap only (DescriptorSteps.RunOfViewable).

## Findings

| source | as written | input that shows it | evidently intended | confidence | as-written member | corrected member |
|---|---|---|---|---|---|---|
| tools/clang/unittests/HLSL/ShaderOpTest.cpp:1359 | the prefix test compares the attribute NAME with the text, so "DXGI_FORMAT_" is never stripped, and a name equal to a short text skips past the text's end | Format="DXGI_FORMAT_R32_FLOAT" (rejected); Format="format" (reads past the end) | compare the text with the prefix | high, not executed | Attributes.ReadAttrEnumAsWritten, Attributes.ReadAttrEnumAsWrittenKeepsPrefix, Attributes.ReadAttrEnumAsWrittenOverrun | Attributes.ReadAttrEnum, Attributes.ReadAttrEnumStripsPrefix |
| tools/clang/unittests/HLSL/ShaderOpTest.cpp:127-129 | D32_FLOAT_S8X24_UINT, R32_FLOAT_X8X24_TYPELESS and X32_TYPELESS_G8X24_UINT are given 4 bytes | format 20, whose family R32G8X24_TYPELESS has 8 | 8 bytes, as for the rest of the 64-bit family | high, not executed | Lookups.GetByteSizeForFormatAsWritten, Lookups.ByteSizeAsWrittenBreaksParent | Lookups.GetByteSizeForFormat, Lookups.ByteSizeFollowsParent |
| tools/clang/unittests/HLSL/ShaderOpTest.cpp:1887-1892 | "-inf" is stored as +infinity and "inf"/"+inf" as -infinity | text "-inf" | the sign follows the spelling, as it does for the denormals | high, not executed | ByteInit.ClassifyAsWritten, ByteInit.InfinitySpellings | ByteInit.Classify, ByteInit.ClassifyDiffersOnInfinities |
| tools/clang/unittests/HLSL/ShaderOpTest.cpp:1543 | a Texture2DArray UAV's PlaneSlice is read from the "MipSlice" attribute | MipSlice="1" PlaneSlice="0" gives plane slice 1 | read the "PlaneSlice" attribute, as the Texture2D case does | high, not executed | Parser.ReadUavViewAsWritten, Parser.PlaneSliceDiscrepancy | Parser.ReadUavView, Parser.Texture2DArrayRead |
