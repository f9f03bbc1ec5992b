/**
 * The Python string operations the scripts rely on: `upper`, `lower`,
 * `strip`, `isdigit`, the `in` substring test, `str.replace` and
 * `sep.join`.  Case mapping and digit tests cover ASCII only.
 */
module Text {

  /** The characters for which Python's `str.isspace` holds. */
  predicate IsSpace(c: char)
  {
    c in {'\t', '\n', '\U{0B}', '\U{0C}', '\r', '\U{1C}', '\U{1D}', '\U{1E}', '\U{1F}', ' ',
          '\U{85}', '\U{A0}', '\U{1680}', '\U{2000}', '\U{2001}', '\U{2002}', '\U{2003}',
          '\U{2004}', '\U{2005}', '\U{2006}', '\U{2007}', '\U{2008}', '\U{2009}', '\U{200A}',
          '\U{2028}', '\U{2029}', '\U{202F}', '\U{205F}', '\U{3000}'}
  }

  predicate IsDigit(c: char)
  {
    '0' <= c <= '9'
  }

  /** Python's `s.isdigit()`: non-empty and made of digits only, so neither white space nor changed by upper-casing. */
  predicate IsDigits(s: string)
    ensures IsDigits(s) ==> s != [] && forall i :: 0 <= i < |s| ==> !IsSpace(s[i]) && UpperChar(s[i]) == s[i]
  {
    |s| > 0 && forall i :: 0 <= i < |s| ==> IsDigit(s[i])
  }

  function UpperChar(c: char): (r: char)
    ensures IsDigit(r) <==> IsDigit(c)
    ensures IsSpace(r) <==> IsSpace(c)
    ensures 'a' <= c <= 'z' ==> 'A' <= r <= 'Z' && r as int == c as int - 32
    ensures !('a' <= c <= 'z') ==> r == c
  {
    if 'a' <= c <= 'z' then (c as int - 32) as char else c
  }

  function LowerChar(c: char): (r: char)
    ensures 'A' <= c <= 'Z' ==> 'a' <= r <= 'z' && r as int == c as int + 32
    ensures !('A' <= c <= 'Z') ==> r == c
  {
    if 'A' <= c <= 'Z' then (c as int + 32) as char else c
  }

  /** `s.upper()`, character by character. */
  function Upper(s: string): (r: string)
    ensures |r| == |s|
    ensures forall i :: 0 <= i < |s| ==> r[i] == UpperChar(s[i])
  {
    seq(|s|, i requires 0 <= i < |s| => UpperChar(s[i]))
  }

  /** `s.lower()`, character by character. */
  function Lower(s: string): (r: string)
    ensures |r| == |s|
    ensures forall i :: 0 <= i < |s| ==> r[i] == LowerChar(s[i])
  {
    seq(|s|, i requires 0 <= i < |s| => LowerChar(s[i]))
  }

  /** Lower-casing lower-cased text changes nothing. */
  lemma LowerTwice(s: string)
    ensures Lower(Lower(s)) == Lower(s)
  {
    assert forall i :: 0 <= i < |s| ==> LowerChar(LowerChar(s[i])) == LowerChar(s[i]);
  }

  /** Drops leading white space. */
  function TrimStart(s: string): (r: string)
    ensures |r| <= |s| && r == s[|s| - |r|..]
    ensures r == [] || !IsSpace(r[0])
    ensures forall i :: 0 <= i < |s| - |r| ==> IsSpace(s[i])
  {
    if s != [] && IsSpace(s[0]) then TrimStart(s[1..]) else s
  }

  /** Drops trailing white space. */
  function TrimEnd(s: string): (r: string)
    ensures |r| <= |s| && r == s[..|r|]
    ensures r == [] || !IsSpace(r[|r| - 1])
    ensures forall i :: |r| <= i < |s| ==> IsSpace(s[i])
  {
    if s != [] && IsSpace(s[|s| - 1]) then TrimEnd(s[..|s| - 1]) else s
  }

  /** Every character of `s` outside `s[lo..hi]` is white space. */
  predicate SpaceOutside(s: string, lo: nat, hi: nat)
    requires lo <= hi <= |s|
  {
    (forall i :: 0 <= i < lo ==> IsSpace(s[i])) && (forall i :: hi <= i < |s| ==> IsSpace(s[i]))
  }

  /**
   * `s.strip()`: the piece of `s` left when the white space at both ends is
   * cut off; it has no white space at either end and is empty exactly when
   * `s` is all white space.
   */
  function Strip(s: string): (r: string)
    ensures exists lo: nat, hi: nat :: lo <= hi <= |s| && r == s[lo..hi] && SpaceOutside(s, lo, hi)
    ensures r == [] || (!IsSpace(r[0]) && !IsSpace(r[|r| - 1]))
    ensures r == [] <==> forall i :: 0 <= i < |s| ==> IsSpace(s[i])
    ensures Contains(s, r)
  {
    var t := TrimStart(s);
    var r := TrimEnd(t);
    Cut(s, t, r);
    r
  }

  /** Cutting white space off the front and then off the back leaves a slice with only white space outside it. */
  lemma Cut(s: string, t: string, r: string)
    requires |t| <= |s| && t == s[|s| - |t|..] && forall i :: 0 <= i < |s| - |t| ==> IsSpace(s[i])
    requires t == [] || !IsSpace(t[0])
    requires |r| <= |t| && r == t[..|r|] && forall i :: |r| <= i < |t| ==> IsSpace(t[i])
    requires r == [] || !IsSpace(r[|r| - 1])
    ensures exists lo: nat, hi: nat :: lo <= hi <= |s| && r == s[lo..hi] && SpaceOutside(s, lo, hi)
    ensures r == [] || (!IsSpace(r[0]) && !IsSpace(r[|r| - 1]))
    ensures r == [] <==> forall i :: 0 <= i < |s| ==> IsSpace(s[i])
    ensures Contains(s, r)
  {
    var lo := |s| - |t|;
    forall i | lo + |r| <= i < |s| ensures IsSpace(s[i]) {
      assert s[i] == t[i - lo];
    }
    assert r == s[lo..lo + |r|];
    assert SpaceOutside(s, lo, lo + |r|);
    ContainsAt(s, r, lo);
    if r != [] {
      assert r[0] == t[0] == s[lo];
    }
  }


  /** `pre` is a prefix of `s`. */
  predicate StartsWith(s: string, pre: string)
  {
    |pre| <= |s| && s[..|pre|] == pre
  }

  /** Python's `sub in s`. */
  predicate Contains(s: string, sub: string)
    decreases |s|
  {
    StartsWith(s, sub) || (s != [] && Contains(s[1..], sub))
  }

  /** `Contains` holds exactly when `sub` occurs at some position of `s`. */
  lemma {:induction false} ContainsAt(s: string, sub: string, k: nat)
    requires k + |sub| <= |s| && s[k..k + |sub|] == sub
    ensures Contains(s, sub)
    decreases k
  {
    if k > 0 {
      assert s[1..][k - 1..k - 1 + |sub|] == s[k..k + |sub|];
      ContainsAt(s[1..], sub, k - 1);
    }
  }

  /** `Contains` holds only where `sub` occurs at some position of `s`. */
  lemma {:induction false} ContainsIndex(s: string, sub: string) returns (k: nat)
    requires Contains(s, sub)
    ensures k + |sub| <= |s| && s[k..k + |sub|] == sub
    decreases |s|
  {
    if StartsWith(s, sub) {
      k := 0;
    } else {
      var j := ContainsIndex(s[1..], sub);
      assert s[1..][j..j + |sub|] == s[j + 1..j + 1 + |sub|];
      k := j + 1;
    }
  }

  /** Nothing longer than `s` occurs in it. */
  lemma ContainsFits(s: string, sub: string)
    ensures Contains(s, sub) ==> |sub| <= |s|
  {
    if Contains(s, sub) {
      var k := ContainsIndex(s, sub);
    }
  }

  /** What occurs in the tail of a text occurs in the whole text. */
  lemma ContainsInSuffix(a: string, b: string, sub: string)
    requires Contains(b, sub)
    ensures Contains(a + b, sub)
  {
    var k := ContainsIndex(b, sub);
    assert (a + b)[|a| + k..|a| + k + |sub|] == b[k..k + |sub|];
    ContainsAt(a + b, sub, |a| + k);
  }

  /** Python's `sep.join(parts)`: it starts with the first part and every part occurs in it. */
  function Join(parts: seq<string>, sep: string): (r: string)
    ensures |parts| > 0 ==> StartsWith(r, parts[0])
    ensures forall i :: 0 <= i < |parts| ==> Contains(r, parts[i])
  {
    if |parts| == 0 then []
    else if |parts| == 1 then parts[0]
    else
      var rest := Join(parts[1..], sep);
      assert (parts[0] + sep + rest)[..|parts[0]|] == parts[0];
      ContainsAt(parts[0] + sep + rest, parts[0], 0);
      assert parts[0] + sep + rest == (parts[0] + sep) + rest;
      forall i | 1 <= i < |parts| ensures Contains((parts[0] + sep) + rest, parts[i]) {
        assert parts[i] == parts[1..][i - 1];
        ContainsInSuffix(parts[0] + sep, rest, parts[i]);
      }
      parts[0] + sep + rest
  }

  /** Python's `s.replace(a, b)` for single characters. */
  function ReplaceChar(s: string, a: char, b: char): (r: string)
    ensures |r| == |s|
    ensures forall i :: 0 <= i < |s| ==> r[i] == if s[i] == a then b else s[i]
  {
    seq(|s|, i requires 0 <= i < |s| => if s[i] == a then b else s[i])
  }

  /**
   * Python's `s.replace(pat, "")`: scanning left to right, every
   * non-overlapping occurrence of `pat` is deleted (an empty `pat` leaves
   * `s` as it is).
   */
  function RemoveAll(s: string, pat: string): (r: string)
    ensures |r| <= |s|
    ensures !Contains(s, pat) ==> r == s
    decreases |s|
  {
    if pat == [] || |s| < |pat| then s
    else if StartsWith(s, pat) then RemoveAll(s[|pat|..], pat)
    else [s[0]] + RemoveAll(s[1..], pat)
  }

  /** Where `pat` occurs, the result is shorter by at least its length. */
  lemma {:induction false} RemoveAllShortens(s: string, pat: string)
    requires pat != [] && Contains(s, pat)
    ensures |RemoveAll(s, pat)| <= |s| - |pat|
    decreases |s|
  {
    ContainsFits(s, pat);
    if !StartsWith(s, pat) {
      RemoveAllShortens(s[1..], pat);
    }
  }

  /** `pat` occurs in `s` at position k. */
  predicate OccursAt(s: string, pat: string, k: nat)
  {
    k + |pat| <= |s| && s[k..k + |pat|] == pat
  }

  /**
   * The first occurrence of `pat`, at position k (no occurrence ends
   * earlier), is deleted: the text before it is kept and the deletion goes
   * on after it.
   */
  lemma {:induction false} RemoveAllFirst(s: string, pat: string, k: nat)
    requires pat != [] && OccursAt(s, pat, k) && !Contains(s[..k + |pat| - 1], pat)
    ensures RemoveAll(s, pat) == s[..k] + RemoveAll(s[k + |pat|..], pat)
    decreases k
  {
    if k == 0 {
      AtStart(s, pat);
    } else {
      var t := s[1..];
      var p := s[..k + |pat| - 1];
      assert p[1..] == t[..k - 1 + |pat| - 1];
      assert p[..|pat|] == s[..|pat|];
      OccursShift(s, pat, k);
      RemoveAllFirst(t, pat, k - 1);
      FirstStep(s, pat, k);
    }
  }

  /** Where `pat` occurs at the start, it is deleted and the deletion goes on after it. */
  lemma AtStart(s: string, pat: string)
    requires pat != [] && OccursAt(s, pat, 0)
    ensures RemoveAll(s, pat) == s[..0] + RemoveAll(s[|pat|..], pat)
  {
    assert s[..|pat|] == s[0..|pat|];
    assert StartsWith(s, pat);
    assert s[..0] + RemoveAll(s[|pat|..], pat) == RemoveAll(s[|pat|..], pat);
  }

  lemma OccursShift(s: string, pat: string, k: nat)
    requires 0 < k && OccursAt(s, pat, k)
    ensures OccursAt(s[1..], pat, k - 1)
  {
    assert s[1..][k - 1..k - 1 + |pat|] == s[k..k + |pat|];
  }

  /** One step of the induction above: the first character is kept when `pat` does not start there. */
  lemma FirstStep(s: string, pat: string, k: nat)
    requires pat != [] && 0 < k && k + |pat| <= |s| && !StartsWith(s, pat)
    requires RemoveAll(s[1..], pat) == s[1..][..k - 1] + RemoveAll(s[1..][k - 1 + |pat|..], pat)
    ensures RemoveAll(s, pat) == s[..k] + RemoveAll(s[k + |pat|..], pat)
  {
    var t := s[1..];
    assert t[k - 1 + |pat|..] == s[k + |pat|..];
    KeepFirst(s, pat);
    Reassemble(s, k, RemoveAll(s, pat), RemoveAll(t, pat), RemoveAll(s[k + |pat|..], pat));
  }

  lemma KeepFirst(s: string, pat: string)
    requires pat != [] && |pat| <= |s| && !StartsWith(s, pat)
    ensures RemoveAll(s, pat) == [s[0]] + RemoveAll(s[1..], pat)
  {
  }

  lemma Reassemble(s: string, k: nat, whole: string, tail: string, rest: string)
    requires 0 < k <= |s|
    requires whole == [s[0]] + tail && tail == s[1..][..k - 1] + rest
    ensures whole == s[..k] + rest
  {
    assert [s[0]] + s[1..][..k - 1] == s[..k];
  }

  /** Deleting a single character removes every copy of it and keeps every other character. */
  lemma {:induction false} RemoveAllChar(s: string, c: char)
    ensures c !in RemoveAll(s, [c])
    ensures multiset(RemoveAll(s, [c])) == multiset(s)[c := 0]
    decreases |s|
  {
    if s != [] {
      RemoveAllChar(s[1..], c);
      assert s == [s[0]] + s[1..];
      if s[0] == c {
        assert StartsWith(s, [c]);
      } else {
        assert !StartsWith(s, [c]);
      }
    }
  }

  /** Deleting a single character splits over concatenation, so the order of the rest is kept. */
  lemma {:induction false} RemoveAllCharAppend(a: string, b: string, c: char)
    ensures RemoveAll(a + b, [c]) == RemoveAll(a, [c]) + RemoveAll(b, [c])
    decreases |a|
  {
    if a != [] {
      assert (a + b)[1..] == a[1..] + b;
      assert (a + b)[0] == a[0];
      RemoveAllCharAppend(a[1..], b, c);
      if a[0] == c {
        assert StartsWith(a + b, [c]) && StartsWith(a, [c]);
      } else {
        assert !StartsWith(a + b, [c]) && !StartsWith(a, [c]);
      }
    } else {
      assert a + b == b;
    }
  }
}
