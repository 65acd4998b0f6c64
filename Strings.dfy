/**
 * The few Python string operations the core relies on: str.strip(),
 * str.startswith() and the substring test `w in s`.
 */
module Strings {

  /** The characters for which Python's str.isspace() holds. */
  const Whitespace: set<char> :=
    { '\t', '\n', '\U{0B}', '\U{0C}', '\r', '\U{1C}', '\U{1D}', '\U{1E}', '\U{1F}', ' ',
      '\U{85}', '\U{A0}', '\U{1680}', '\U{2000}', '\U{2001}', '\U{2002}', '\U{2003}',
      '\U{2004}', '\U{2005}', '\U{2006}', '\U{2007}', '\U{2008}', '\U{2009}', '\U{200A}',
      '\U{2028}', '\U{2029}', '\U{202F}', '\U{205F}', '\U{3000}' }

  predicate IsSpace(c: char) {
    c in Whitespace
  }

  /** Neither end of `s` is whitespace: what str.strip() leaves. */
  predicate IsStripped(s: string) {
    s == [] || (!IsSpace(s[0]) && !IsSpace(s[|s| - 1]))
  }

  /** How many whitespace characters `s` starts with. */
  function LeadingSpaces(s: string): (n: nat)
    ensures n <= |s|
    ensures forall k :: 0 <= k < n ==> IsSpace(s[k])
    ensures n == |s| || !IsSpace(s[n])
  {
    if s != [] && IsSpace(s[0]) then 1 + LeadingSpaces(s[1..]) else 0
  }

  /** How many whitespace characters `s` ends with. */
  function TrailingSpaces(s: string): (n: nat)
    ensures n <= |s|
    ensures forall k :: |s| - n <= k < |s| ==> IsSpace(s[k])
    ensures n == |s| || !IsSpace(s[|s| - 1 - n])
  {
    if s != [] && IsSpace(s[|s| - 1]) then 1 + TrailingSpaces(s[..|s| - 1]) else 0
  }

  /**
   * str.strip(): drops the whitespace at both ends and keeps the rest. The
   * result is the slice of `s` that starts after its leading whitespace;
   * every character after that slice is whitespace, and neither end of the
   * slice is: together these fix the result.
   */
  function Strip(s: string): (r: string)
    ensures var i := LeadingSpaces(s); i + |r| <= |s| && r == s[i..i + |r|]
    ensures forall k :: LeadingSpaces(s) + |r| <= k < |s| ==> IsSpace(s[k])
    ensures IsStripped(r)
    ensures IsStripped(s) ==> r == s
  {
    var i := LeadingSpaces(s);
    var j := TrailingSpaces(s[i..]);
    assert forall k :: |s| - j <= k < |s| ==> s[k] == s[i..][k - i];
    assert j < |s| - i ==> s[|s| - 1 - j] == s[i..][|s| - i - 1 - j];
    s[i..|s| - j]
  }

  /** A string reads back unchanged through str.strip() exactly when its ends are not whitespace. */
  lemma StripFixesExactlyStripped(s: string)
    ensures Strip(s) == s <==> IsStripped(s)
  {
  }

  /** str.startswith(p). */
  predicate StartsWith(s: string, p: string) {
    p <= s
  }

  /** The substring test `w in s`: `w` occurs in `s` at some position. */
  predicate Contains(s: string, w: string)
    decreases |s|
  {
    w <= s || (s != [] && Contains(s[1..], w))
  }

  /** `w` occurs in `s` starting at position `i`. */
  predicate OccursAt(s: string, w: string, i: nat) {
    i + |w| <= |s| && s[i..i + |w|] == w
  }

  /** An occurrence of `w` at any position of `s` makes `w in s` true. */
  lemma {:induction false} OccurrenceContains(s: string, w: string, i: nat)
    requires OccursAt(s, w, i)
    ensures Contains(s, w)
    decreases i
  {
    if i == 0 {
      assert w <= s;
    } else {
      assert s[1..][i - 1..i - 1 + |w|] == s[i..i + |w|];
      OccurrenceContains(s[1..], w, i - 1);
    }
  }

  /** `w in s` holds only when `w` occurs in `s` at some position. */
  lemma {:induction false} ContainsHasOccurrence(s: string, w: string)
    requires Contains(s, w)
    ensures exists i: nat :: OccursAt(s, w, i)
    decreases |s|
  {
    if w <= s {
      assert OccursAt(s, w, 0);
    } else {
      ContainsHasOccurrence(s[1..], w);
      var i: nat :| OccursAt(s[1..], w, i);
      assert s[1..][i..i + |w|] == s[i + 1..i + 1 + |w|];
      assert OccursAt(s, w, i + 1);
    }
  }
}
