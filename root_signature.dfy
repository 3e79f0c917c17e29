/**
 * ShaderOpTest::CreateRootSignature up to the compiler call: the root
 * signature text is wrapped in double quotes, and every CR and LF before
 * the terminating NUL is overwritten with a space.
 */
module RootSignature {
  import opened Wrappers

  /** The character the quoting loop leaves at a position it visits. */
  function Unbreak(c: char): (d: char)
    ensures d != '\r' && d != '\n'
    ensures c != '\r' && c != '\n' ==> d == c
  {
    if c == '\r' || c == '\n' then ' ' else c
  }

  /** strlen: the position of the first NUL, or the length when there is none. */
  function NulIndex(s: string): (n: nat)
    ensures n <= |s|
    ensures n < |s| ==> s[n] == '\0'
    ensures forall k :: 0 <= k < n ==> s[k] != '\0'
  {
    if s == [] then 0
    else if s[0] == '\0' then 0
    else NulIndex(s[1..]) + 1
  }

  /** The text the loop leaves: characters before the first NUL unbroken, the rest as they were. */
  function UnbreakUntilNul(s: string): (u: string)
    ensures |u| == |s|
  {
    seq(|s|, k requires 0 <= k < |s| => if k < NulIndex(s) then Unbreak(s[k]) else s[k])
  }

  /** The quoted root signature handed to the compiler. */
  function Quoted(text: string): (q: string)
    ensures |q| == |text| + 2
  {
    UnbreakUntilNul("\"" + text + "\"")
  }

  /** The loop over the quoted string, which overwrites CR and LF in place. */
  method UnbreakInPlace(a: array<char>)
    modifies a
    ensures a[..] == UnbreakUntilNul(old(a[..]))
  {
    ghost var s := a[..];
    var ch := 0;
    while ch < a.Length && a[ch] != '\0'
      invariant 0 <= ch <= a.Length
      invariant forall k :: 0 <= k < ch ==> s[k] != '\0' && a[k] == Unbreak(s[k])
      invariant forall k :: ch <= k < a.Length ==> a[k] == s[k]
    {
      if a[ch] == '\r' || a[ch] == '\n' {
        a[ch] := ' ';
      }
      ch := ch + 1;
    }
    NulAt(s, ch);
    assert forall k :: 0 <= k < a.Length ==> a[k] == UnbreakUntilNul(s)[k];
  }

  /**
   * The quoting of CreateRootSignature; a shader op without a root
   * signature is E_INVALIDARG.
   */
  method QuoteRootSignature(rootSignature: Option<string>) returns (r: Result<string>)
    ensures rootSignature.None? ==> r == Err(InvalidArg)
    ensures rootSignature.Some? ==> r == Ok(Quoted(rootSignature.value))
  {
    if rootSignature.None? {
      return Err(InvalidArg);
    }
    var text := rootSignature.value;
    var quoted := new char[|text| + 2];
    quoted[0] := '"';
    var i := 0;
    while i < |text|
      invariant 0 <= i <= |text|
      invariant quoted[0] == '"'
      invariant forall k :: 0 <= k < i ==> quoted[k + 1] == text[k]
    {
      quoted[i + 1] := text[i];
      i := i + 1;
    }
    quoted[|text| + 1] := '"';
    assert quoted[..] == "\"" + text + "\"";
    UnbreakInPlace(quoted);
    return Ok(quoted[..]);
  }

  /** The loop stops at the first NUL. */
  lemma NulAt(s: string, n: nat)
    requires n <= |s|
    requires forall k :: 0 <= k < n ==> s[k] != '\0'
    requires n < |s| ==> s[n] == '\0'
    ensures NulIndex(s) == n
  {
  }

  /** A text read from XML has no NUL; its quoted form starts and ends with a quote and has no line breaks. */
  lemma QuotedShape(text: string)
    requires forall k :: 0 <= k < |text| ==> text[k] != '\0'
    ensures Quoted(text)[0] == '"' && Quoted(text)[|text| + 1] == '"'
    ensures forall k :: 0 <= k < |text| ==> Quoted(text)[k + 1] == Unbreak(text[k])
    ensures forall k :: 0 <= k < |text| + 2 ==> Quoted(text)[k] != '\r' && Quoted(text)[k] != '\n'
  {
    var s := "\"" + text + "\"";
    NulAt(s, |s|);
  }

  /** A text without line breaks or NULs is only wrapped in quotes. */
  lemma QuotedPlain(text: string)
    requires forall k :: 0 <= k < |text| ==> text[k] != '\0' && text[k] != '\r' && text[k] != '\n'
    ensures Quoted(text) == "\"" + text + "\""
  {
    var s := "\"" + text + "\"";
    NulAt(s, |s|);
  }

  /** Example: a two-line root signature becomes one line. */
  lemma QuotedTwoLines()
    ensures Quoted("A\r\nB") == "\"A  B\""
  {
    var s := "\"" + "A\r\nB" + "\"";
    NulAt(s, |s|);
  }
}
