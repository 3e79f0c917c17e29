/**
 * The byte initializer of a Resource element: the element's text is a list
 * of literals separated by white space, braces and commas, and every
 * literal contributes the four bytes of a 32-bit float.
 */
module ByteInit {
  import opened Text

  newtype byte = x: int | 0 <= x < 256

  /** The four bytes of a float, in memory order. */
  datatype FloatBytes = FloatBytes(b0: byte, b1: byte, b2: byte, b3: byte)

  function Bytes(f: FloatBytes): (r: seq<byte>)
    ensures |r| == 4
  {
    [f.b0, f.b1, f.b2, f.b3]
  }

  /**
   * The value a literal stands for: one of the five spelled floats, or
   * whatever `wcstof` makes of the literal.
   */
  datatype InitValue = NaN | PosInfinity | NegInfinity | PosDenorm | NegDenorm | Parsed(literal: string)

  /** The characters SkipByteInitSeparators skips and FindByteInitSeparators stops at. */
  predicate IsSeparator(c: char)
  {
    c == ' ' || c == '\t' || c == '\r' || c == '\n' || c == '{' || c == '}' || c == ','
  }

  /** The first position at or after `p` that holds no separator, or the end. */
  function SeparatorsEnd(text: string, p: nat): (q: nat)
    requires p <= |text|
    ensures p <= q <= |text|
    ensures forall i :: p <= i < q ==> IsSeparator(text[i])
    ensures q < |text| ==> !IsSeparator(text[q])
    decreases |text| - p
  {
    if p < |text| && IsSeparator(text[p]) then SeparatorsEnd(text, p + 1) else p
  }

  /** The first position at or after `p` that holds a separator, or the end. */
  function LiteralEnd(text: string, p: nat): (q: nat)
    requires p <= |text|
    ensures p <= q <= |text|
    ensures forall i :: p <= i < q ==> !IsSeparator(text[i])
    ensures q < |text| ==> IsSeparator(text[q])
    decreases |text| - p
  {
    if p < |text| && !IsSeparator(text[p]) then LiteralEnd(text, p + 1) else p
  }

  /** SkipByteInitSeparators, on a position into the text. */
  method SkipByteInitSeparators(text: string, start: nat) returns (p: nat)
    requires start <= |text|
    ensures p == SeparatorsEnd(text, start)
  {
    p := start;
    while p < |text| && IsSeparator(text[p])
      invariant start <= p <= |text|
      invariant SeparatorsEnd(text, p) == SeparatorsEnd(text, start)
    {
      p := p + 1;
    }
  }

  /** FindByteInitSeparators, on a position into the text. */
  method FindByteInitSeparators(text: string, start: nat) returns (p: nat)
    requires start <= |text|
    ensures p == LiteralEnd(text, start)
  {
    p := start;
    while p < |text| && !IsSeparator(text[p])
      invariant start <= p <= |text|
      invariant LiteralEnd(text, p) == LiteralEnd(text, start)
    {
      p := p + 1;
    }
  }

  /**
   * The classification as written.  The spelled floats are recognised by
   * comparing the WHOLE remaining text, not the literal, so they count only
   * as the last literal of the text; "-inf" gives +infinity and "inf" or
   * "+inf" give -infinity.  Anything else goes to `wcstof`, which stops at
   * the first separator and so reads the literal alone.
   */
  function ClassifyAsWritten(rest: string, literal: string): (v: InitValue)
  {
    if CaseEq(rest, "nan") then NaN
    else if CaseEq(rest, "-inf") then PosInfinity
    else if CaseEq(rest, "inf") || CaseEq(rest, "+inf") then NegInfinity
    else if CaseEq(rest, "-denorm") then NegDenorm
    else if CaseEq(rest, "denorm") then PosDenorm
    else Parsed(literal)
  }

  /** The classification with the signs of the infinities following the spelling, as the denormals do. */
  function Classify(rest: string, literal: string): (v: InitValue)
  {
    if CaseEq(rest, "nan") then NaN
    else if CaseEq(rest, "-inf") then NegInfinity
    else if CaseEq(rest, "inf") || CaseEq(rest, "+inf") then PosInfinity
    else if CaseEq(rest, "-denorm") then NegDenorm
    else if CaseEq(rest, "denorm") then PosDenorm
    else Parsed(literal)
  }

  /** The two classifications differ only on the infinities. */
  lemma ClassifyDiffersOnInfinities(rest: string, literal: string)
    ensures ClassifyAsWritten(rest, literal) == PosInfinity <==> Classify(rest, literal) == NegInfinity
    ensures ClassifyAsWritten(rest, literal) == NegInfinity <==> Classify(rest, literal) == PosInfinity
    ensures ClassifyAsWritten(rest, literal) !in {PosInfinity, NegInfinity} ==>
      ClassifyAsWritten(rest, literal) == Classify(rest, literal)
  {
  }

  /** The spelled infinities, as written and corrected. */
  lemma InfinitySpellings()
    ensures ClassifyAsWritten("-inf", "-inf") == PosInfinity && Classify("-inf", "-inf") == NegInfinity
    ensures ClassifyAsWritten("INF", "INF") == NegInfinity && Classify("INF", "INF") == PosInfinity
    ensures ClassifyAsWritten("+Inf", "+Inf") == NegInfinity && Classify("+Inf", "+Inf") == PosInfinity
  {
    assert CaseEq("-inf", "-inf");
    assert Lower('I') == 'i' && Lower('N') == 'n' && Lower('F') == 'f';
    assert !CaseEq("INF", "nan") by {
      assert Lower("INF"[0]) != Lower("nan"[0]);
    }
    assert CaseEq("INF", "inf");
    assert !CaseEq("+Inf", "nan") && !CaseEq("+Inf", "inf");
    assert !CaseEq("+Inf", "-inf") by {
      assert Lower("+Inf"[0]) != Lower("-inf"[0]);
    }
    assert CaseEq("+Inf", "+inf");
  }

  /**
   * The bytes the text contributes from position `p` on: skip separators,
   * take the literal up to the next separator, classify it against the rest
   * of the text and append its four bytes.
   */
  function InitBytes(text: string, p: nat, encode: InitValue -> FloatBytes): (r: seq<byte>)
    requires p <= |text|
    decreases |text| - p
  {
    var q := SeparatorsEnd(text, p);
    if q == |text| then []
    else
      var e := LiteralEnd(text, q);
      Bytes(encode(Classify(text[q..], text[q..e]))) + InitBytes(text, e, encode)
  }

  /**
   * The token loop of ParseResource over one text node: the bytes of every
   * literal are appended to `initBytes` in order.
   */
  method AppendInitText(initBytes: seq<byte>, text: string, encode: InitValue -> FloatBytes) returns (w: seq<byte>)
    ensures w == initBytes + InitBytes(text, 0, encode)
  {
    w := initBytes;
    var p := 0;
    while p < |text|
      invariant p <= |text|
      invariant w + InitBytes(text, p, encode) == initBytes + InitBytes(text, 0, encode)
      decreases |text| - p
    {
      p := SkipByteInitSeparators(text, p);
      if p == |text| {
        continue;
      }
      var e := FindByteInitSeparators(text, p);
      var v := Classify(text[p..], text[p..e]);
      w := w + Bytes(encode(v));
      p := e;
    }
  }

  /** The bytes of several text nodes of one element, one after the other. */
  function InitBytesOfTexts(texts: seq<string>, encode: InitValue -> FloatBytes): (r: seq<byte>)
  {
    if texts == [] then [] else InitBytes(texts[0], 0, encode) + InitBytesOfTexts(texts[1..], encode)
  }

  /** A literal starts at `i`: no separator there, and a separator or the start before it. */
  predicate LiteralStart(text: string, i: nat)
    requires i < |text|
  {
    !IsSeparator(text[i]) && (i == 0 || IsSeparator(text[i - 1]))
  }

  /** The number of literals that start at or after `i`. */
  function LiteralsFrom(text: string, i: nat): nat
    requires i <= |text|
    decreases |text| - i
  {
    if i == |text| then 0 else (if LiteralStart(text, i) then 1 else 0) + LiteralsFrom(text, i + 1)
  }

  /** The number of maximal runs of non-separators in the text. */
  function LiteralCount(text: string): nat
  {
    LiteralsFrom(text, 0)
  }

  lemma {:induction false} NoStartsBetween(text: string, a: nat, b: nat)
    requires a <= b <= |text|
    requires forall i :: a <= i < b ==> !LiteralStart(text, i)
    ensures LiteralsFrom(text, a) == LiteralsFrom(text, b)
    decreases b - a
  {
    if a < b {
      NoStartsBetween(text, a + 1, b);
    }
  }

  lemma InitBytesStep(text: string, p: nat, encode: InitValue -> FloatBytes)
    requires p <= |text| && SeparatorsEnd(text, p) < |text|
    ensures |InitBytes(text, p, encode)| == 4 + |InitBytes(text, LiteralEnd(text, SeparatorsEnd(text, p)), encode)|
  {
  }

  /** From a separator on, the literals are the one after the separators and those after it. */
  lemma LiteralsStep(text: string, p: nat)
    requires p <= |text| && (p == 0 || p == |text| || IsSeparator(text[p]))
    ensures SeparatorsEnd(text, p) == |text| ==> LiteralsFrom(text, p) == 0
    ensures SeparatorsEnd(text, p) < |text| ==>
      LiteralsFrom(text, p) == 1 + LiteralsFrom(text, LiteralEnd(text, SeparatorsEnd(text, p)))
  {
    var q := SeparatorsEnd(text, p);
    NoStartsBetween(text, p, q);
    if q < |text| {
      assert LiteralsFrom(text, q) == 1 + LiteralsFrom(text, q + 1) by {
        assert LiteralStart(text, q);
      }
      NoStartsBetween(text, q + 1, LiteralEnd(text, q));
    }
  }

  /** Four bytes per literal, whatever the literals are. */
  lemma {:induction false} InitBytesLength(text: string, p: nat, encode: InitValue -> FloatBytes)
    requires p <= |text| && (p == 0 || p == |text| || IsSeparator(text[p]))
    ensures |InitBytes(text, p, encode)| == 4 * LiteralsFrom(text, p)
    decreases |text| - p
  {
    LiteralsStep(text, p);
    var q := SeparatorsEnd(text, p);
    if q < |text| {
      InitBytesStep(text, p, encode);
      InitBytesLength(text, LiteralEnd(text, q), encode);
    }
  }

  /** The bytes of a text node number four times its literals. */
  lemma InitTextLength(text: string, encode: InitValue -> FloatBytes)
    ensures |InitBytes(text, 0, encode)| == 4 * LiteralCount(text)
  {
    InitBytesLength(text, 0, encode);
  }

  /** A text that is one of the five spellings holds no separator. */
  lemma SpelledHasNoSeparator(rest: string, literal: string)
    requires Classify(rest, literal) !in {Parsed(literal)}
    ensures forall i :: 0 <= i < |rest| ==> !IsSeparator(rest[i])
  {
    forall i | 0 <= i < |rest|
      ensures !IsSeparator(rest[i])
    {
    }
  }

  /** A spelled float is recognised only as the last literal of the text. */
  lemma SpelledIsLast(text: string, q: nat)
    requires q < |text| && !IsSeparator(text[q])
    requires Classify(text[q..], text[q..LiteralEnd(text, q)]).Parsed? == false
    ensures LiteralEnd(text, q) == |text|
  {
    var e := LiteralEnd(text, q);
    SpelledHasNoSeparator(text[q..], text[q..e]);
  }

  /**
   * "inf" followed by another literal is not the spelled infinity: the
   * comparison sees "inf, 1" and the literal goes to `wcstof`.
   */
  lemma SpelledNotLast(encode: InitValue -> FloatBytes)
    ensures InitBytes("inf, 1", 0, encode) == Bytes(encode(Parsed("inf"))) + Bytes(encode(Parsed("1")))
  {
    var text := "inf, 1";
    assert SeparatorsEnd(text, 0) == 0;
    assert LiteralEnd(text, 3) == 3;
    assert LiteralEnd(text, 0) == 3;
    assert text[0..] == text && text[0..3] == "inf";
    assert !CaseEq(text, "nan") && !CaseEq(text, "-inf") && !CaseEq(text, "inf");
    assert SeparatorsEnd(text, 5) == 5 && SeparatorsEnd(text, 3) == 5;
    assert LiteralEnd(text, 6) == 6 && LiteralEnd(text, 5) == 6;
    assert text[5..] == "1" && text[5..6] == "1";
    assert SeparatorsEnd(text, 6) == 6;
  }
}
