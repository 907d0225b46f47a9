/** Text primitives the dashboard relies on: lower-casing as far as it can
    produce ASCII letters (Python's `str.lower` on `A`..`Z` and on the Kelvin
    sign) and substring containment (Python's `w in s`, and pandas' `str.contains` with
    a pattern made only of letters). */
module Text {

  predicate IsAsciiUpper(c: char) {
    'A' <= c <= 'Z'
  }

  /** U+212A KELVIN SIGN, the one character outside `A`..`Z` whose lower
      case in Python is an ASCII letter. */
  const KelvinSign: char := '\U{212A}'

  /** Lower-cases one character: `A`..`Z` move up by 32 code points, the
      Kelvin sign becomes `k`, and every other character is kept. */
  function LowerChar(c: char): (r: char)
    ensures !IsAsciiUpper(r) && r != KelvinSign
    ensures IsAsciiUpper(c) ==> r as int == c as int + 32
    ensures c == KelvinSign ==> r == 'k'
    ensures !IsAsciiUpper(c) && c != KelvinSign ==> r == c
  {
    if IsAsciiUpper(c) then (c as int + 32) as char
    else if c == KelvinSign then 'k'
    else c
  }

  function Lower(s: string): (r: string)
    ensures |r| == |s|
    ensures forall i :: 0 <= i < |s| ==> r[i] == LowerChar(s[i])
  {
    seq(|s|, i requires 0 <= i < |s| => LowerChar(s[i]))
  }

  /** Lower-casing a lower-cased string changes nothing. */
  lemma LowerIdempotent(s: string)
    ensures Lower(Lower(s)) == Lower(s)
  {
  }

  /** `w` occurs in `s` at offset `i`. */
  predicate OccursAt(s: string, w: string, i: int) {
    0 <= i && i + |w| <= |s| && s[i..i + |w|] == w
  }

  /** `w in s` in Python: `w` occurs somewhere in `s`; the empty string
      occurs in every string. */
  predicate Contains(s: string, w: string) {
    exists i :: 0 <= i <= |s| - |w| && OccursAt(s, w, i)
  }

  /** Lower-casing keeps every occurrence of a word that lower-casing leaves
      alone. */
  lemma LowerKeepsOccurrence(s: string, w: string, i: int)
    requires OccursAt(s, w, i)
    requires Lower(w) == w
    ensures OccursAt(Lower(s), w, i)
  {
    forall k | 0 <= k < |w|
      ensures Lower(s)[i + k] == w[k]
    {
      assert s[i + k] == s[i..i + |w|][k];
      assert Lower(w)[k] == LowerChar(w[k]);
    }
  }

  /** Substring containment is transitive: a string holding `m` holds every
      substring of `m`. */
  lemma ContainsTransitive(s: string, m: string, w: string)
    requires Contains(s, m) && Contains(m, w)
    ensures Contains(s, w)
  {
    var i :| 0 <= i <= |s| - |m| && OccursAt(s, m, i);
    var j :| 0 <= j <= |m| - |w| && OccursAt(m, w, j);
    forall k | 0 <= k < |w|
      ensures s[i + j + k] == w[k]
    {
      assert s[i + j + k] == s[i..i + |m|][j + k];
      assert m[j + k] == m[j..j + |w|][k];
    }
    assert s[i + j..i + j + |w|] == w;
    assert OccursAt(s, w, i + j);
  }

  /** A string does not contain a word one of whose characters it lacks. */
  lemma NotContainsMissingChar(s: string, w: string, k: int)
    requires 0 <= k < |w| && w[k] !in s
    ensures !Contains(s, w)
  {
    forall i | 0 <= i <= |s| - |w|
      ensures !OccursAt(s, w, i)
    {
      assert s[i..i + |w|][k] == s[i + k];
    }
  }

  /** Python's substring test as a left-to-right scan of candidate offsets. */
  method FindSubstring(s: string, w: string) returns (found: bool)
    ensures found <==> Contains(s, w)
  {
    if |w| > |s| {
      return false;
    }
    var i := 0;
    while i <= |s| - |w|
      invariant 0 <= i <= |s| - |w| + 1
      invariant forall k :: 0 <= k < i ==> !OccursAt(s, w, k)
    {
      if s[i..i + |w|] == w {
        assert OccursAt(s, w, i);
        return true;
      }
      i := i + 1;
    }
    return false;
  }
}
