/**
 * The per-session watch list both Moat Hunter dashboards keep: a list of
 * ticker codes the user grows through an "add" box and shrinks through a
 * "remove" select box whose first option is a placeholder.  The list is
 * changed in place and never holds the same code twice.
 */
module Watchlists {
  import Text

  /** The select box's first option, meaning "nothing selected". */
  const Placeholder := "(選)"

  predicate NoDuplicates(s: seq<string>)
  {
    forall i, j :: 0 <= i < j < |s| ==> s[i] != s[j]
  }

  /** The position of the first occurrence of `x`, which Python's `list.remove` deletes. */
  function IndexOf(s: seq<string>, x: string): (k: nat)
    requires x in s
    ensures k < |s| && s[k] == x
    ensures x !in s[..k]
  {
    if s[0] == x then 0 else 1 + IndexOf(s[1..], x)
  }

  /** `s` without the entry at position `k`, the others in their order. */
  function Without(s: seq<string>, k: nat): (r: seq<string>)
    requires k < |s|
    ensures |r| == |s| - 1
    ensures forall i :: 0 <= i < k ==> r[i] == s[i]
    ensures forall i :: k <= i < |r| ==> r[i] == s[i + 1]
  {
    s[..k] + s[k + 1..]
  }

  /** Deleting one entry of a duplicate-free list keeps it duplicate-free, drops that code and keeps every other. */
  lemma WithoutKeepsOthers(s: seq<string>, k: nat)
    requires NoDuplicates(s) && k < |s|
    ensures NoDuplicates(Without(s, k))
    ensures s[k] !in Without(s, k)
    ensures forall y :: y != s[k] ==> (y in Without(s, k) <==> y in s)
  {
    var r := Without(s, k);
    forall y | y != s[k] && y in s ensures y in r {
      var i :| 0 <= i < |s| && s[i] == y;
      if i < k { assert r[i] == y; } else { assert r[i - 1] == y; }
    }
  }

  class Watchlist {
    var entries: seq<string>

    ghost predicate Valid()
      reads this
    {
      NoDuplicates(entries)
    }

    constructor (initial: seq<string>)
      requires NoDuplicates(initial)
      ensures Valid() && entries == initial
    {
      entries := initial;
    }

    /** The options of the remove box: the placeholder, then the entries. */
    function Choices(): (r: seq<string>)
      reads this
      ensures |r| == |entries| + 1 && r[0] == Placeholder && r[1..] == entries
    {
      [Placeholder] + entries
    }

    /** Appends `code` unless it is already listed. */
    method Add(code: string)
      requires Valid()
      modifies this
      ensures Valid()
      ensures code in entries
      ensures entries == if code in old(entries) then old(entries) else old(entries) + [code]
    {
      if code !in entries {
        entries := entries + [code];
      }
    }

    /**
     * Acts on the remove box's choice: the placeholder leaves the list as it
     * is; any other choice is deleted (`list.remove`, which deletes the first
     * occurrence) and the other entries keep their order.
     */
    method Remove(choice: string)
      requires Valid()
      requires choice in Choices()
      modifies this
      ensures Valid()
      ensures choice == Placeholder ==> entries == old(entries)
      ensures choice != Placeholder ==>
        choice in old(entries) && entries == Without(old(entries), IndexOf(old(entries), choice))
      ensures choice != Placeholder ==> choice !in entries && |entries| == |old(entries)| - 1
    {
      if choice != Placeholder {
        assert choice in Choices()[1..];
        var k := IndexOf(entries, choice);
        WithoutKeepsOthers(entries, k);
        entries := Without(entries, k);
      }
    }
  }

  /**
   * The code the add box yields: the typed text upper-cased, then stripped
   * of surrounding white space, so the slice of the upper-cased text left
   * when the white space at both ends of the typed text is cut off.
   */
  function Normalize(raw: string): (code: string)
    ensures exists lo: nat, hi: nat :: lo <= hi <= |raw| && code == Text.Upper(raw)[lo..hi] && Text.SpaceOutside(raw, lo, hi)
    ensures code == [] <==> forall i :: 0 <= i < |raw| ==> Text.IsSpace(raw[i])
    ensures forall i :: 0 <= i < |code| ==> !('a' <= code[i] <= 'z')
    ensures code == [] || (!Text.IsSpace(code[0]) && !Text.IsSpace(code[|code| - 1]))
  {
    var up := Text.Upper(raw);
    var code := Text.Strip(up);
    UpperHasNoLower(raw);
    NoLowerInPiece(up, code);
    UpperKeepsSpace(raw, code);
    code
  }

  lemma UpperHasNoLower(raw: string)
    ensures forall i :: 0 <= i < |Text.Upper(raw)| ==> !('a' <= Text.Upper(raw)[i] <= 'z')
  {
  }

  /** The white space of the upper-cased text is that of the typed text. */
  lemma UpperKeepsSpace(raw: string, code: string)
    requires code == Text.Strip(Text.Upper(raw))
    ensures exists lo: nat, hi: nat :: lo <= hi <= |raw| && code == Text.Upper(raw)[lo..hi] && Text.SpaceOutside(raw, lo, hi)
    ensures code == [] <==> forall i :: 0 <= i < |raw| ==> Text.IsSpace(raw[i])
  {
    var up := Text.Upper(raw);
    var lo: nat, hi: nat :| lo <= hi <= |up| && code == up[lo..hi] && Text.SpaceOutside(up, lo, hi);
    assert forall i :: 0 <= i < |raw| ==> up[i] == Text.UpperChar(raw[i]);
    assert Text.SpaceOutside(raw, lo, hi);
  }

  lemma {:induction false} NoLowerInPiece(s: string, piece: string)
    requires forall i :: 0 <= i < |s| ==> !('a' <= s[i] <= 'z')
    requires Text.Contains(s, piece)
    ensures forall i :: 0 <= i < |piece| ==> !('a' <= piece[i] <= 'z')
    decreases |s|
  {
    if Text.StartsWith(s, piece) {
      assert forall i :: 0 <= i < |piece| ==> piece[i] == s[i];
    } else {
      NoLowerInPiece(s[1..], piece);
    }
  }

  /** Text that is already upper-case and has no white space at either end is its own normalised form. */
  lemma NormalizeStable(x: string)
    requires forall i :: 0 <= i < |x| ==> !('a' <= x[i] <= 'z')
    requires x == [] || (!Text.IsSpace(x[0]) && !Text.IsSpace(x[|x| - 1]))
    ensures Normalize(x) == x
  {
    assert Text.Upper(x) == x;
    assert Text.TrimStart(x) == x;
    assert Text.TrimEnd(x) == x;
  }
}
