/**
 * The ShaderOpParser attribute readers, over an element's attributes already
 * read into a map from attribute name to text.  A reader that finds no
 * attribute of the requested name yields its default.
 */
module Attributes {
  import opened Wrappers
  import opened Text
  import opened D3D12
  import opened EnumNames
  import opened EnumTables

  /** The attributes of the element the reader is positioned on. */
  type Attrs = map<string, string>

  /** LONG_MIN and LONG_MAX of the 32-bit `long` that `_wtol` returns. */
  const LONG_MIN: int := -0x8000_0000
  const LONG_MAX: int := 0x7FFF_FFFF

  // ---------------------------------------------------------------------
  // _wtol

  /** The white space `_wtol` skips. */
  predicate IsSpace(c: char)
  {
    c == ' ' || c == '\t' || c == '\n' || c == '\U{B}' || c == '\U{C}' || c == '\r'
  }

  predicate IsDigit(c: char)
  {
    '0' <= c <= '9'
  }

  predicate AllDigits(d: string)
  {
    forall i :: 0 <= i < |d| ==> IsDigit(d[i])
  }

  predicate AllSpaces(w: string)
  {
    forall i :: 0 <= i < |w| ==> IsSpace(w[i])
  }

  /** The text after its leading white space. */
  function SkipSpaces(s: string): (r: string)
    ensures |r| <= |s| && r == s[|s| - |r|..]
    ensures AllSpaces(s[..|s| - |r|])
    ensures r == [] || !IsSpace(r[0])
  {
    if s != [] && IsSpace(s[0]) then SkipSpaces(s[1..]) else s
  }

  /** The length of the run of digits that starts the text. */
  function DigitPrefix(s: string): (n: nat)
    ensures n <= |s| && AllDigits(s[..n])
    ensures n < |s| ==> !IsDigit(s[n])
  {
    if s == [] || !IsDigit(s[0]) then 0
    else
      var n := 1 + DigitPrefix(s[1..]);
      assert s[..n] == [s[0]] + s[1..][..n - 1];
      n
  }

  /** The number a string of decimal digits spells. */
  function DigitsValue(d: string): nat
    requires AllDigits(d)
  {
    if d == [] then 0
    else DigitsValue(d[..|d| - 1]) * 10 + (d[|d| - 1] as int - '0' as int)
  }

  /**
   * `_wtol`: skip white space, read an optional sign and then as many decimal
   * digits as follow.  A text without digits reads as 0.  A value outside the
   * range of `long` sets errno to ERANGE, modelled as `Err(Overflow)`.
   */
  function Wtol(text: string): (r: Result<int>)
    ensures r.Ok? ==> LONG_MIN <= r.value <= LONG_MAX
    ensures r.Err? ==> r.error == Overflow
  {
    SignedValue(SkipSpaces(text))
  }

  /** The signed number at the start of a text that does not start with white space. */
  function SignedValue(s: string): (r: Result<int>)
    ensures r.Ok? ==> LONG_MIN <= r.value <= LONG_MAX
    ensures r.Err? ==> r.error == Overflow
  {
    var neg := s != [] && s[0] == '-';
    var body := if s != [] && (s[0] == '-' || s[0] == '+') then s[1..] else s;
    var mag := DigitsValue(body[..DigitPrefix(body)]);
    var v: int := if neg then -(mag as int) else mag;
    if v < LONG_MIN || v > LONG_MAX then Err(Overflow) else Ok(v)
  }

  /** The decimal spelling of a number, without leading zeros. */
  function DecimalString(n: nat): (d: string)
    ensures |d| >= 1 && AllDigits(d)
  {
    var last := [('0' as int + n % 10) as char];
    if n < 10 then last else DecimalString(n / 10) + last
  }

  lemma {:induction false} DecimalStringValue(n: nat)
    ensures DigitsValue(DecimalString(n)) == n
  {
    var d := DecimalString(n);
    if n >= 10 {
      assert d[..|d| - 1] == DecimalString(n / 10);
      DecimalStringValue(n / 10);
    }
  }

  lemma {:induction false} SkipLeadingSpaces(w: string, s: string)
    requires AllSpaces(w) && (s == [] || !IsSpace(s[0]))
    ensures SkipSpaces(w + s) == s
  {
    if w != [] {
      assert (w + s)[1..] == w[1..] + s;
      SkipLeadingSpaces(w[1..], s);
    }
  }

  lemma {:induction false} DigitRun(d: string, rest: string)
    requires AllDigits(d) && (rest == [] || !IsDigit(rest[0]))
    ensures DigitPrefix(d + rest) == |d|
  {
    if d != [] {
      assert (d + rest)[1..] == d[1..] + rest;
      DigitRun(d[1..], rest);
    }
  }

  /** The value `_wtol` gives a sign, digits and a text that does not continue the digits. */
  function SignedDigits(sign: string, d: string): int
    requires AllDigits(d)
  {
    if sign == "-" then -(DigitsValue(d) as int) else DigitsValue(d)
  }

  lemma SignedParts(sign: string, d: string, rest: string)
    requires d != [] && AllDigits(d)
    requires sign == "" || sign == "+" || sign == "-"
    requires rest == [] || !IsDigit(rest[0])
    ensures SignedValue(sign + d + rest) ==
      if LONG_MIN <= SignedDigits(sign, d) <= LONG_MAX then Ok(SignedDigits(sign, d)) else Err(Overflow)
  {
    var body := d + rest;
    DigitRun(d, rest);
    assert body[..|d|] == d;
    if sign == "" {
      assert sign + d + rest == body;
      assert IsDigit(body[0]);
    } else {
      var s := sign + d + rest;
      assert s[0] == sign[0] && s[1..] == body;
    }
  }

  /** `_wtol` on white space, a sign, digits and a text that does not continue the digits. */
  lemma WtolParts(lead: string, sign: string, d: string, rest: string)
    requires AllSpaces(lead) && d != [] && AllDigits(d)
    requires sign == "" || sign == "+" || sign == "-"
    requires rest == [] || !IsDigit(rest[0])
    ensures Wtol(lead + sign + d + rest) ==
      if LONG_MIN <= SignedDigits(sign, d) <= LONG_MAX then Ok(SignedDigits(sign, d)) else Err(Overflow)
  {
    var s := sign + d + rest;
    assert lead + sign + d + rest == lead + s;
    assert s[0] == if sign == "" then d[0] else sign[0];
    SkipLeadingSpaces(lead, s);
    SignedParts(sign, d, rest);
  }

  /**
   * Round trip: white space, a sign, the decimal spelling of a number in the
   * range of `long` and any text that does not start with a digit read back
   * as that number.
   */
  lemma WtolDecimal(lead: string, sign: string, n: nat, rest: string)
    requires AllSpaces(lead)
    requires sign == "" || sign == "+" || sign == "-"
    requires if sign == "-" then n <= -LONG_MIN else n <= LONG_MAX
    requires rest == [] || !IsDigit(rest[0])
    ensures Wtol(lead + sign + DecimalString(n) + rest) == Ok(if sign == "-" then -(n as int) else n as int)
  {
    WtolParts(lead, sign, DecimalString(n), rest);
    DecimalStringValue(n);
  }

  /** A number beyond LONG_MAX sets ERANGE. */
  lemma WtolTooLarge(n: nat)
    requires n > LONG_MAX
    ensures Wtol(DecimalString(n)) == Err(Overflow)
  {
    WtolParts("", "", DecimalString(n), "");
    assert "" + "" + DecimalString(n) + "" == DecimalString(n);
    DecimalStringValue(n);
  }

  /** A text that does not start with a sign or a digit reads as 0. */
  lemma WtolNoDigits(text: string)
    requires text != [] && !IsSpace(text[0]) && !IsDigit(text[0])
    requires text[0] != '-' && text[0] != '+'
    ensures Wtol(text) == Ok(0)
  {
  }

  // ---------------------------------------------------------------------
  // Readers

  /** ReadAttrStr: the attribute's text, or null when it is absent. */
  function ReadAttrStr(attrs: Attrs, name: string): (r: Option<string>)
    ensures r.None? <==> name !in attrs
    ensures r.Some? ==> r.value == attrs[name]
  {
    if name in attrs then Some(attrs[name]) else None
  }

  /** ReadAttrBOOL: TRUE exactly when the text is "true" in any case. */
  function ReadAttrBool(attrs: Attrs, name: string, default: bool): bool
  {
    if name !in attrs then default else CaseEq(attrs[name], "true")
  }

  /** Every spelling of "true" reads as TRUE and every other text as FALSE. */
  lemma ReadAttrBoolText(attrs: Attrs, name: string, default: bool)
    requires name in attrs
    ensures ReadAttrBool(attrs, name, default) <==>
      |attrs[name]| == 4 && Lower(attrs[name][0]) == 't' && Lower(attrs[name][1]) == 'r' &&
      Lower(attrs[name][2]) == 'u' && Lower(attrs[name][3]) == 'e'
  {
  }

  lemma ReadAttrBoolAbsent(attrs: Attrs, name: string, default: bool)
    requires name !in attrs
    ensures ReadAttrBool(attrs, name, default) == default
  {
  }

  /** Texts such as "1", "yes" and "TRUE " are not true. */
  lemma ReadAttrBoolOthers()
    ensures !ReadAttrBool(map["Flag" := "1"], "Flag", true)
    ensures !ReadAttrBool(map["Flag" := "yes"], "Flag", true)
    ensures !ReadAttrBool(map["Flag" := "TRUE "], "Flag", true)
    ensures ReadAttrBool(map["Flag" := "TrUe"], "Flag", false)
  {
  }

  /**
   * ReadAttrUINT64: the `_wtol` value converted to UINT64, so that a
   * negative number wraps modulo 2^64; ERANGE is E_INVALIDARG.
   */
  function ReadAttrUInt64(attrs: Attrs, name: string, default: nat): (r: Result<nat>)
    requires default < UINT64_LIMIT
    ensures r.Ok? ==> r.value < UINT64_LIMIT
    ensures name !in attrs ==> r == Ok(default)
    ensures name in attrs ==> (r.Ok? <==> Wtol(attrs[name]).Ok?)
    ensures name in attrs && r.Ok? ==> r.value % UINT64_LIMIT == Wtol(attrs[name]).value % UINT64_LIMIT
    ensures r.Err? ==> r.error == InvalidArg
  {
    if name !in attrs then Ok(default)
    else
      match Wtol(attrs[name])
      case Err(_) => Err(InvalidArg)
      case Ok(v) => Ok(if v < 0 then v + UINT64_LIMIT else v)
  }

  /** ReadAttrUINT: the UINT64 reading, refused with an overflow above 32 bits. */
  function ReadAttrUInt(attrs: Attrs, name: string, default: nat): (r: Result<nat>)
    requires default < UINT_LIMIT
    ensures r.Ok? ==> r.value < UINT_LIMIT
    ensures r.Ok? <==> ReadAttrUInt64(attrs, name, default).Ok? && ReadAttrUInt64(attrs, name, default).value < UINT_LIMIT
    ensures r.Ok? ==> r.value == ReadAttrUInt64(attrs, name, default).value
    ensures r.Err? && ReadAttrUInt64(attrs, name, default).Ok? ==> r.error == Overflow
  {
    var u :- ReadAttrUInt64(attrs, name, default);
    if u >= UINT_LIMIT then Err(Overflow) else Ok(u)
  }

  /** ReadAttrUINT16: the UINT64 reading, refused with an overflow above 16 bits. */
  function ReadAttrUInt16(attrs: Attrs, name: string, default: nat): (r: Result<nat>)
    requires default < UINT16_LIMIT
    ensures r.Ok? ==> r.value < UINT16_LIMIT
    ensures r.Ok? <==> ReadAttrUInt64(attrs, name, default).Ok? && ReadAttrUInt64(attrs, name, default).value < UINT16_LIMIT
    ensures r.Ok? ==> r.value == ReadAttrUInt64(attrs, name, default).value
    ensures r.Err? && ReadAttrUInt64(attrs, name, default).Ok? ==> r.error == Overflow
  {
    var u :- ReadAttrUInt64(attrs, name, default);
    if u >= UINT16_LIMIT then Err(Overflow) else Ok(u)
  }

  /** A decimal number in range reads back unchanged at every width that holds it. */
  lemma ReadAttrUIntDecimal(attrs: Attrs, name: string, n: nat)
    requires n <= LONG_MAX && name in attrs && attrs[name] == DecimalString(n)
    ensures ReadAttrUInt64(attrs, name, 0) == Ok(n)
    ensures ReadAttrUInt(attrs, name, 0) == Ok(n)
    ensures ReadAttrUInt16(attrs, name, 0).Ok? <==> n < UINT16_LIMIT
  {
    WtolDecimal("", "", n, "");
    assert "" + "" + DecimalString(n) + "" == DecimalString(n);
  }

  /** `_wtol` reads "-1" as -1. */
  lemma WtolMinusOne()
    ensures Wtol("-1") == Ok(-1)
  {
    WtolDecimal("", "-", 1, "");
    assert DecimalString(1) == "1";
    assert "" + "-" + DecimalString(1) + "" == "-1";
  }

  /** "-1" wraps to the largest UINT64, which no narrower width accepts. */
  lemma ReadAttrUIntMinusOne(attrs: Attrs, name: string)
    requires name in attrs && attrs[name] == "-1"
    ensures ReadAttrUInt64(attrs, name, 0) == Ok(UINT64_LIMIT - 1)
    ensures ReadAttrUInt(attrs, name, 0) == Err(Overflow)
    ensures ReadAttrUInt16(attrs, name, 0) == Err(Overflow)
  {
    WtolMinusOne();
  }

  /**
   * Because `_wtol` stops at LONG_MAX, a UINT read from text is either at
   * most LONG_MAX or not accepted at all: values from 2^31 to 2^32 - 1 can
   * only come from a default.
   */
  lemma ReadAttrUIntFromText(attrs: Attrs, name: string, default: nat)
    requires default < UINT_LIMIT && name in attrs
    requires ReadAttrUInt(attrs, name, default).Ok?
    ensures ReadAttrUInt(attrs, name, default).value <= LONG_MAX
  {
  }

  // ---------------------------------------------------------------------
  // Enumerations

  /** An enumeration reading: the value and whether the attribute was present (S_OK) or not (S_FALSE). */
  datatype EnumRead = EnumRead(value: nat, present: bool)

  /** The default each ReadAttr<kind> wrapper passes for an absent attribute. */
  function EnumDefault(k: EnumKind): nat
  {
    match k
    case InputClassification => INPUT_CLASSIFICATION_PER_VERTEX_DATA
    case DxgiFormat => FORMAT_UNKNOWN
    case HeapType => HEAP_TYPE_DEFAULT
    case CpuPageProperty => CPU_PAGE_PROPERTY_UNKNOWN
    case MemoryPool => MEMORY_POOL_UNKNOWN
    case ResourceDimension => RESOURCE_DIMENSION_BUFFER
    case TextureLayout => TEXTURE_LAYOUT_UNKNOWN
    case ResourceFlag => RESOURCE_FLAG_NONE
    case HeapFlag => HEAP_FLAG_NONE
    case ResourceState => RESOURCE_STATE_COMMON
    case DescriptorHeapType => DESCRIPTOR_HEAP_TYPE_CBV_SRV_UAV
    case DescriptorHeapFlag => DESCRIPTOR_HEAP_FLAG_SHADER_VISIBLE
    case UavDimension => UAV_DIMENSION_BUFFER
  }
  /** Every default is a value of its kind's table, so an absent attribute reads as a valid enumerator. */
  lemma EnumDefaultInTable(k: EnumKind)
    ensures EnumDefault(k) in Values(k)
  {
    match k
    case DxgiFormat => assert FormatTable.Values()[0] == FORMAT_UNKNOWN;
    case InputClassification => assert Values(k)[1] == EnumDefault(k);
    case ResourceDimension => assert Values(k)[1] == EnumDefault(k);
    case DescriptorHeapFlag => assert Values(k)[1] == EnumDefault(k);
    case UavDimension => assert Values(k)[1] == EnumDefault(k);
    case _ => assert Values(k)[0] == EnumDefault(k);
  }


  /** Only formats may be written with a prefix, "DXGI_FORMAT_". */
  function EnumPrefix(k: EnumKind): string
  {
    if k == DxgiFormat then "DXGI_FORMAT_" else ""
  }

  /** Whether the text starts with the prefix, ignoring case. */
  predicate HasPrefix(text: string, prefix: string)
  {
    |prefix| <= |text| && CaseEq(prefix, text[..|prefix|])
  }

  /**
   * The text ReadAttrEnumT passes to the lookup, with the evidently intended
   * strip test: a text that starts with the prefix, in any case, loses it.
   * None when the attribute is absent.
   */
  function EnumText(attrs: Attrs, name: string, prefix: string): (r: Option<string>)
    ensures r.None? <==> name !in attrs
    ensures r.Some? && HasPrefix(attrs[name], prefix) ==> attrs[name] == attrs[name][..|prefix|] + r.value
    ensures r.Some? && !HasPrefix(attrs[name], prefix) ==> r.value == attrs[name]
  {
    if name !in attrs then None
    else
      var text := attrs[name];
      if HasPrefix(text, prefix) then Some(text[|prefix|..]) else Some(text)
  }

  /**
   * The same step as written: it compares the first `wcslen(prefix)`
   * characters of the attribute NAME with the text, so the prefix is
   * skipped only when the text spells the attribute's own name.  Such a
   * text is shorter than the prefix, and skipping moves the pointer past
   * its terminator: a read out of bounds.
   */
  function EnumTextAsWritten(attrs: Attrs, name: string, prefix: string): (r: Result<Option<string>>)
    ensures r.Ok? ==> (r.value.None? <==> name !in attrs)
    ensures r.Err? ==> r.error == OutOfBoundsRead && name in attrs && |attrs[name]| < |prefix|
  {
    if name !in attrs then Ok(None)
    else
      var text := attrs[name];
      if prefix != [] && NCaseEq(name, text, |prefix|) then
        if |text| < |prefix| then Err(OutOfBoundsRead) else Ok(Some(text[|prefix|..]))
      else Ok(Some(text))
  }

  /** As written, a prefixed text is passed on whole unless the attribute name starts like it. */
  lemma EnumTextAsWrittenKeepsPrefix(attrs: Attrs, name: string, prefix: string)
    requires name in attrs && prefix != [] && HasPrefix(attrs[name], prefix)
    requires !NCaseEq(name, attrs[name], |prefix|)
    ensures EnumTextAsWritten(attrs, name, prefix) == Ok(Some(attrs[name]))
    ensures EnumText(attrs, name, prefix) == Some(attrs[name][|prefix|..])
  {
  }

  /** As written, a text spelling the attribute's own name overruns when the name is shorter than the prefix. */
  lemma EnumTextAsWrittenOverrun(attrs: Attrs, name: string, prefix: string)
    requires name in attrs && |name| < |prefix| && CaseEq(name, attrs[name])
    ensures EnumTextAsWritten(attrs, name, prefix) == Err(OutOfBoundsRead)
  {
  }

  /** Without a prefix both versions pass the text on unchanged. */
  lemma EnumTextNoPrefix(attrs: Attrs, name: string)
    ensures EnumTextAsWritten(attrs, name, "") == Ok(EnumText(attrs, name, ""))
    ensures name in attrs ==> EnumText(attrs, name, "") == Some(attrs[name])
  {
  }

  /**
   * ReadAttrEnumT over the corrected strip step: absent gives the kind's
   * default with S_FALSE; otherwise the lookup of the text.
   */
  function ReadAttrEnum(attrs: Attrs, name: string, k: EnumKind): (r: Result<EnumRead>)
    ensures name !in attrs ==> r == Ok(EnumRead(EnumDefault(k), false))
    ensures name in attrs && r.Ok? ==> r.value.present
    ensures r.Err? ==> r.error == InvalidArg
  {
    match EnumText(attrs, name, EnumPrefix(k))
    case None => Ok(EnumRead(EnumDefault(k), false))
    case Some(text) =>
      var v :- GetEnumValue(text, k);
      Ok(EnumRead(v, true))
  }

  /** ReadAttrEnumT as written. */
  function ReadAttrEnumAsWritten(attrs: Attrs, name: string, k: EnumKind): (r: Result<EnumRead>)
    ensures name !in attrs ==> r == Ok(EnumRead(EnumDefault(k), false))
    ensures name in attrs && r.Ok? ==> r.value.present
  {
    var text :- EnumTextAsWritten(attrs, name, EnumPrefix(k));
    match text
    case None => Ok(EnumRead(EnumDefault(k), false))
    case Some(t) =>
      var v :- GetEnumValue(t, k);
      Ok(EnumRead(v, true))
  }

  /** Every table entry, spelled in any case, reads as its value. */
  lemma ReadAttrEnumOwnName(name: string, k: EnumKind, j: nat, spelled: string)
    requires j < |TableOf(k).names| && CaseEq(spelled, TableOf(k).names[j])
    requires !HasPrefix(spelled, EnumPrefix(k))
    ensures ReadAttrEnum(map[name := spelled], name, k) == Ok(EnumRead(TableOf(k).values[j], true))
  {
    GetEnumValueOwnName(k, j, spelled);
  }

  /** A format name read with its "DXGI_FORMAT_" prefix, in any case, reads as that format. */
  lemma ReadAttrEnumPrefixed(name: string, j: nat, spelled: string)
    requires j < |TableOf(DxgiFormat).names| && CaseEq(spelled, TableOf(DxgiFormat).names[j])
    ensures ReadAttrEnum(map[name := "DXGI_FORMAT_" + spelled], name, DxgiFormat) ==
      Ok(EnumRead(TableOf(DxgiFormat).values[j], true))
  {
    PrefixedText(name, "DXGI_FORMAT_", spelled);
    GetEnumValueOwnName(DxgiFormat, j, spelled);
  }

  lemma PrefixedText(name: string, prefix: string, rest: string)
    ensures EnumText(map[name := prefix + rest], name, prefix) == Some(rest)
  {
    var text := prefix + rest;
    assert text[..|prefix|] == prefix;
    CaseEqRefl(prefix);
    assert text[|prefix|..] == rest;
  }

  /** A text that is no entry of the table, and has no prefix to strip, is E_INVALIDARG. */
  lemma ReadAttrEnumUnknown(name: string, k: EnumKind, text: string)
    requires !HasPrefix(text, EnumPrefix(k))
    requires forall j :: 0 <= j < |TableOf(k).names| ==> !CaseEq(text, TableOf(k).names[j])
    ensures ReadAttrEnum(map[name := text], name, k) == Err(InvalidArg)
  {
  }

  /**
   * The discrepancy at the strip test, first half: as written, a Format
   * attribute "DXGI_FORMAT_R32_FLOAT" keeps its prefix and names no format.
   */
  lemma ReadAttrEnumAsWrittenKeepsPrefix()
    ensures ReadAttrEnumAsWritten(map["Format" := "DXGI_FORMAT_R32_FLOAT"], "Format", DxgiFormat) == Err(InvalidArg)
  {
    var text := "DXGI_FORMAT_R32_FLOAT";
    assert EnumTextAsWritten(map["Format" := text], "Format", "DXGI_FORMAT_") == Ok(Some(text)) by {
      assert Take("Format", 12) == "Format";
      assert !NCaseEq("Format", text, 12);
    }
    DxgiFormatSecondX(text);
  }

  /** Second half: as written, a Format attribute spelling "format" reads out of bounds. */
  lemma ReadAttrEnumAsWrittenOverrun()
    ensures ReadAttrEnumAsWritten(map["Format" := "format"], "Format", DxgiFormat) == Err(OutOfBoundsRead)
  {
    EnumTextAsWrittenOverrun(map["Format" := "format"], "Format", "DXGI_FORMAT_");
  }

  /** With the intended test, "DXGI_FORMAT_R32_FLOAT" is R32_FLOAT. */
  lemma ReadAttrEnumStripsPrefix()
    ensures ReadAttrEnum(map["Format" := "DXGI_FORMAT_R32_FLOAT"], "Format", DxgiFormat) == Ok(EnumRead(FORMAT_R32_FLOAT, true))
  {
    assert "DXGI_FORMAT_" + "R32_FLOAT" == "DXGI_FORMAT_R32_FLOAT";
    PrefixedText("Format", "DXGI_FORMAT_", "R32_FLOAT");
    FormatTable.R32FloatEntry();
    CaseEqRefl("R32_FLOAT");
    GetEnumValueOwnName(DxgiFormat, 41, "R32_FLOAT");
  }

  /** For the kinds without a prefix both versions read alike. */
  lemma ReadAttrEnumNoPrefixAgrees(attrs: Attrs, name: string, k: EnumKind)
    requires k != DxgiFormat
    ensures ReadAttrEnumAsWritten(attrs, name, k) == ReadAttrEnum(attrs, name, k)
  {
    EnumTextNoPrefix(attrs, name);
  }

  /**
   * For formats the two versions read alike unless the text starts with
   * "DXGI_FORMAT_" or spells the attribute's own name.
   */
  lemma ReadAttrEnumFormatAgrees(attrs: Attrs, name: string)
    requires name in attrs ==> !HasPrefix(attrs[name], "DXGI_FORMAT_") && !NCaseEq(name, attrs[name], 12)
    ensures ReadAttrEnumAsWritten(attrs, name, DxgiFormat) == ReadAttrEnum(attrs, name, DxgiFormat)
  {
    assert EnumTextAsWritten(attrs, name, "DXGI_FORMAT_") == Ok(EnumText(attrs, name, "DXGI_FORMAT_"));
  }
}
