/** st::string_table: interning of the strings a shader-op description names. */
module Interning {

  /**
   * The table keeps one owned copy of every distinct string inserted
   * (`m_strings`) and a set over those copies (`m_values`) that finds a copy
   * by content.  A handle, the pointer to a copy, is modelled as the copy's
   * position in `strings`; `handles` is the set, keyed by content.
   */
  class StringTable {
    var strings: seq<string>
    var handles: map<string, nat>

    /** Every copy is in the set under its own content, and the set holds nothing else. */
    predicate Valid()
      reads this
    {
      (forall s :: s in handles ==> handles[s] < |strings| && strings[handles[s]] == s) &&
      (forall h :: 0 <= h < |strings| ==> strings[h] in handles && handles[strings[h]] == h)
    }

    constructor()
      ensures Valid() && strings == [] && handles == map[]
    {
      strings := [];
      handles := map[];
    }

    /** The content a handle stands for. */
    function Content(h: nat): (s: string)
      reads this
      requires Valid() && h < |strings|
      ensures s in handles && handles[s] == h
    {
      strings[h]
    }

    /**
     * string_table::insert: the copy already stored for this content, or a
     * new copy appended when there is none.
     */
    method Insert(s: string) returns (h: nat)
      requires Valid()
      modifies this
      ensures Valid()
      ensures h < |strings| && strings[h] == s
      ensures old(s in handles) ==> h == old(handles[s]) && strings == old(strings) && handles == old(handles)
      ensures old(s !in handles) ==> h == old(|strings|) && strings == old(strings) + [s] && handles == old(handles)[s := h]
    {
      if s in handles {
        h := handles[s];
      } else {
        h := |strings|;
        strings := strings + [s];
        handles := handles[s := h];
      }
    }

    /** Two handles are the same exactly when their contents are. */
    lemma HandlesDistinct(a: string, b: string)
      requires Valid() && a in handles && b in handles
      ensures handles[a] == handles[b] <==> a == b
    {
    }

    /** No content is stored twice. */
    lemma NoDuplicateCopies(i: nat, j: nat)
      requires Valid() && i < |strings| && j < |strings| && strings[i] == strings[j]
      ensures i == j
    {
    }
  }

  /**
   * Inserting the same content twice yields the same handle, and the second
   * insertion leaves the table as the first one left it.
   */
  method InsertTwice(t: StringTable, s: string) returns (h1: nat, h2: nat)
    requires t.Valid()
    modifies t
    ensures t.Valid() && h1 == h2 && h1 < |t.strings| && t.strings[h1] == s
    ensures |t.strings| <= old(|t.strings|) + 1
  {
    h1 := t.Insert(s);
    ghost var before := t.strings;
    h2 := t.Insert(s);
    assert t.strings == before;
  }

  /** Different contents inserted one after the other get different handles. */
  method InsertDistinct(t: StringTable, a: string, b: string) returns (ha: nat, hb: nat)
    requires t.Valid() && a != b
    modifies t
    ensures t.Valid() && ha != hb
    ensures ha < |t.strings| && hb < |t.strings| && t.strings[ha] == a && t.strings[hb] == b
  {
    ha := t.Insert(a);
    hb := t.Insert(b);
  }
}
