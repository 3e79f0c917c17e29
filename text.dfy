/**
 * Character-level helpers for the C runtime comparisons the source relies on:
 * `_stricmp` / `_wcsicmp` (whole-string, case-insensitive) and `_wcsnicmp`
 * (case-insensitive on at most n characters).  Case folding is ASCII only.
 */
module Text {

  function Lower(c: char): char
  {
    if 'A' <= c <= 'Z' then (c as int + 32) as char else c
  }

  /** `_stricmp(a, b) == 0`: same length and equal after folding every character. */
  predicate CaseEq(a: string, b: string)
  {
    |a| == |b| && forall i :: 0 <= i < |a| ==> Lower(a[i]) == Lower(b[i])
  }

  /** The part of a NUL-terminated string that `_wcsnicmp(_, _, n)` looks at. */
  function Take(s: string, n: nat): (r: string)
    ensures |r| <= n && r <= s
    ensures |s| <= n ==> r == s
  {
    if |s| <= n then s else s[..n]
  }

  /** `_wcsnicmp(a, b, n) == 0`. */
  predicate NCaseEq(a: string, b: string, n: nat)
  {
    CaseEq(Take(a, n), Take(b, n))
  }

  /**
   * Every character sorts before 'a': upper-case letters, digits, '_' and
   * space, the alphabet of the enumeration tables.
   */
  predicate UpperOnly(s: string)
  {
    forall i :: 0 <= i < |s| ==> s[i] < 'a'
  }

  lemma CaseEqRefl(a: string)
    ensures CaseEq(a, a)
  {
  }

  lemma CaseEqSym(a: string, b: string)
    requires CaseEq(a, b)
    ensures CaseEq(b, a)
  {
  }

  /** On strings without lower-case letters, case-insensitive equality is equality. */
  lemma UpperCaseEq(a: string, b: string)
    requires UpperOnly(a) && UpperOnly(b) && CaseEq(a, b)
    ensures a == b
  {
    forall i | 0 <= i < |a|
      ensures a[i] == b[i]
    {
      assert Lower(a[i]) == Lower(b[i]);
    }
  }

  predicate AllUpperOnly(ss: seq<string>)
  {
    forall i :: 0 <= i < |ss| ==> UpperOnly(ss[i])
  }

  predicate Distinct(ss: seq<string>)
  {
    forall i, j :: 0 <= i < j < |ss| ==> ss[i] != ss[j]
  }

  predicate Disjoint(a: seq<string>, b: seq<string>)
  {
    forall i, j :: 0 <= i < |a| && 0 <= j < |b| ==> a[i] != b[j]
  }

  lemma AppendClean(a: seq<string>, b: seq<string>)
    requires AllUpperOnly(a) && AllUpperOnly(b) && Distinct(a) && Distinct(b) && Disjoint(a, b)
    ensures AllUpperOnly(a + b) && Distinct(a + b)
  {
    var ab := a + b;
    forall i, j | 0 <= i < j < |ab|
      ensures ab[i] != ab[j]
    {
      if j < |a| {
        assert ab[i] == a[i] && ab[j] == a[j];
      } else if i < |a| {
        assert ab[i] == a[i] && ab[j] == b[j - |a|];
      } else {
        assert ab[i] == b[i - |a|] && ab[j] == b[j - |a|];
      }
    }
  }

  lemma DisjointAppend(a: seq<string>, b: seq<string>, c: seq<string>)
    requires Disjoint(a, c) && Disjoint(b, c)
    ensures Disjoint(a + b, c)
  {
    var ab := a + b;
    forall i, j | 0 <= i < |ab| && 0 <= j < |c|
      ensures ab[i] != c[j]
    {
      if i < |a| {
        assert ab[i] == a[i];
      } else {
        assert ab[i] == b[i - |a|];
      }
    }
  }
}
