/** Column-name clean-up done right after the spreadsheet is read: every
    header is stripped of surrounding whitespace (pandas `str.strip`, which
    is Python's `str.strip()`) and every remaining space becomes `_`
    (`str.replace(" ", "_")`), so that "Call Status " is looked up as
    "Call_Status". */
module Columns {

  /** The characters for which Python's `str.isspace` holds: the ASCII
      whitespace and separator controls, space, and the Unicode spaces. */
  const Whitespace: seq<char> := [
    '\U{9}', '\U{A}', '\U{B}', '\U{C}', '\U{D}', '\U{1C}', '\U{1D}',
    '\U{1E}', '\U{1F}', '\U{20}', '\U{85}', '\U{A0}', '\U{1680}',
    '\U{2000}', '\U{2001}', '\U{2002}', '\U{2003}', '\U{2004}',
    '\U{2005}', '\U{2006}', '\U{2007}', '\U{2008}', '\U{2009}',
    '\U{200A}', '\U{2028}', '\U{2029}', '\U{202F}', '\U{205F}',
    '\U{3000}'
  ]

  /** `c` is one of `chars`, found by walking the list. */
  predicate OneOf(c: char, chars: seq<char>) {
    |chars| > 0 && (c == chars[0] || OneOf(c, chars[1..]))
  }

  predicate IsSpace(c: char) {
    OneOf(c, Whitespace)
  }

  /** Drops leading whitespace: the result is a suffix of `s`, everything cut
      off was whitespace, and the result does not start with whitespace. */
  function StripStart(s: string): (r: string)
    ensures |r| <= |s| && r == s[|s| - |r|..]
    ensures forall i :: 0 <= i < |s| - |r| ==> IsSpace(s[i])
    ensures |r| > 0 ==> !IsSpace(r[0])
  {
    if |s| > 0 && IsSpace(s[0]) then
      var r := StripStart(s[1..]);
      LeadingSpaceStep(s, r);
      r
    else s
  }

  /** Whitespace cut from the tail of `s`, preceded by one more whitespace
      character, is whitespace cut from `s`. */
  lemma LeadingSpaceStep(s: string, r: string)
    requires |s| > 0 && IsSpace(s[0])
    requires |r| <= |s| - 1 && r == s[1..][|s| - 1 - |r|..]
    requires forall i :: 0 <= i < |s| - 1 - |r| ==> IsSpace(s[1..][i])
    ensures r == s[|s| - |r|..]
    ensures forall i :: 0 <= i < |s| - |r| ==> IsSpace(s[i])
  {
    forall i | 0 <= i < |s| - |r|
      ensures IsSpace(s[i])
    {
      if i > 0 {
        assert s[i] == s[1..][i - 1];
      }
    }
  }

  /** Drops trailing whitespace: the result is a prefix of `s`, everything cut
      off was whitespace, and the result does not end with whitespace. */
  function StripEnd(s: string): (r: string)
    ensures |r| <= |s| && r == s[..|r|]
    ensures forall i :: |r| <= i < |s| ==> IsSpace(s[i])
    ensures |r| > 0 ==> !IsSpace(r[|r| - 1])
  {
    if |s| > 0 && IsSpace(s[|s| - 1]) then
      var r := StripEnd(s[..|s| - 1]);
      TrailingSpaceStep(s, s[..|s| - 1], r);
      r
    else s
  }

  /** Whitespace cut from the head of `s` without its last character, which
      is whitespace, is whitespace cut from `s`. */
  lemma TrailingSpaceStep(s: string, p: string, r: string)
    requires |s| > 0 && IsSpace(s[|s| - 1]) && p == s[..|s| - 1]
    requires |r| <= |p| && r == p[..|r|]
    requires forall i :: |r| <= i < |p| ==> IsSpace(p[i])
    ensures r == s[..|r|]
    ensures forall i :: |r| <= i < |s| ==> IsSpace(s[i])
  {
    forall i | |r| <= i < |s|
      ensures IsSpace(s[i])
    {
      if i < |p| {
        assert s[i] == p[i];
      }
    }
  }

  /** `r` is `s[lo..lo + |r|]` and only whitespace lies outside it. */
  predicate IsTrimmedSlice(s: string, r: string, lo: int) {
    && 0 <= lo <= |s| - |r|
    && r == s[lo..lo + |r|]
    && (forall i :: 0 <= i < lo ==> IsSpace(s[i]))
    && (forall i :: lo + |r| <= i < |s| ==> IsSpace(s[i]))
  }

  /** `str.strip()`: the result is the slice `s[lo..lo + |r|]` with only
      whitespace on either side of it, and it neither starts nor ends with
      whitespace. */
  function Strip(s: string): (r: string)
    ensures |r| <= |s|
    ensures exists lo :: IsTrimmedSlice(s, r, lo)
    ensures |r| > 0 ==> !IsSpace(r[0]) && !IsSpace(r[|r| - 1])
  {
    var a := StripStart(s);
    var r := StripEnd(a);
    TrimmedSliceOf(s, a, r);
    r
  }

  /** Cutting leading whitespace and then trailing whitespace leaves a
      trimmed slice. */
  lemma TrimmedSliceOf(s: string, a: string, r: string)
    requires |a| <= |s| && a == s[|s| - |a|..]
    requires forall i :: 0 <= i < |s| - |a| ==> IsSpace(s[i])
    requires |r| <= |a| && r == a[..|r|]
    requires forall i :: |r| <= i < |a| ==> IsSpace(a[i])
    ensures IsTrimmedSlice(s, r, |s| - |a|)
  {
    var lo := |s| - |a|;
    SliceOfSuffix(s, a, r, lo);
    TrailingSpace(s, a, r, lo);
  }

  lemma SliceOfSuffix(s: string, a: string, r: string, lo: int)
    requires 0 <= lo <= |s| && a == s[lo..]
    requires |r| <= |a| && r == a[..|r|]
    ensures r == s[lo..lo + |r|]
  {
  }

  lemma TrailingSpace(s: string, a: string, r: string, lo: int)
    requires 0 <= lo <= |s| && a == s[lo..] && |r| <= |a|
    requires forall i :: |r| <= i < |a| ==> IsSpace(a[i])
    ensures forall i :: lo + |r| <= i < |s| ==> IsSpace(s[i])
  {
    forall i | lo + |r| <= i < |s|
      ensures IsSpace(s[i])
    {
      assert s[i] == a[i - lo];
    }
  }

  /** `str.replace(" ", "_")`: every space becomes an underscore and every
      other character stays where it was. */
  function ReplaceSpaces(s: string): (r: string)
    ensures |r| == |s|
    ensures ' ' !in r
    ensures forall i :: 0 <= i < |s| && s[i] != ' ' ==> r[i] == s[i]
    ensures forall i :: 0 <= i < |s| && s[i] == ' ' ==> r[i] == '_'
  {
    seq(|s|, i requires 0 <= i < |s| => if s[i] == ' ' then '_' else s[i])
  }

  /** The clean-up applied to one header: the header's slice between its
      leading and trailing whitespace, with every space replaced by `_`. */
  function NormalizeColumn(name: string): (r: string)
    ensures exists t, lo :: IsTrimmedSlice(name, t, lo)
              && (|t| > 0 ==> !IsSpace(t[0]) && !IsSpace(t[|t| - 1]))
              && r == ReplaceSpaces(t)
    ensures ' ' !in r
    ensures |r| > 0 ==> !IsSpace(r[0]) && !IsSpace(r[|r| - 1])
    ensures |r| <= |name|
  {
    var t := Strip(name);
    ReplaceSpacesKeepsEnds(t);
    NormalizeIsReplacedSlice(name, t);
    ReplaceSpaces(t)
  }

  /** The stripped header is the trimmed slice the clean-up replaces spaces
      in. */
  lemma NormalizeIsReplacedSlice(name: string, t: string)
    requires t == Strip(name)
    ensures exists t', lo :: IsTrimmedSlice(name, t', lo)
              && (|t'| > 0 ==> !IsSpace(t'[0]) && !IsSpace(t'[|t'| - 1]))
              && ReplaceSpaces(t) == ReplaceSpaces(t')
  {
    var lo :| IsTrimmedSlice(name, t, lo);
    assert IsTrimmedSlice(name, t, lo)
           && (|t| > 0 ==> !IsSpace(t[0]) && !IsSpace(t[|t| - 1]))
           && ReplaceSpaces(t) == ReplaceSpaces(t);
  }

  /** A string without surrounding whitespace starts and ends with the same
      characters after the replacement, since a space is whitespace. */
  lemma ReplaceSpacesKeepsEnds(t: string)
    requires |t| > 0 ==> !IsSpace(t[0]) && !IsSpace(t[|t| - 1])
    ensures |ReplaceSpaces(t)| > 0 ==>
              ReplaceSpaces(t)[0] == t[0] && ReplaceSpaces(t)[|t| - 1] == t[|t| - 1]
  {
    SpaceIsWhitespace();
  }

  /** A character listed at any position is one of the list. */
  lemma {:induction false} OneOfAt(c: char, chars: seq<char>, i: int)
    requires 0 <= i < |chars| && chars[i] == c
    ensures OneOf(c, chars)
    decreases i
  {
    if i > 0 {
      OneOfAt(c, chars[1..], i - 1);
    }
  }

  /** The space character is whitespace. */
  lemma SpaceIsWhitespace()
    ensures IsSpace(' ')
  {
    OneOfAt(' ', Whitespace, 9);
  }

  /** The clean-up applied to every header, in column order. */
  function NormalizeColumns(names: seq<string>): (r: seq<string>)
    ensures |r| == |names|
    ensures forall i :: 0 <= i < |r| ==> r[i] == NormalizeColumn(names[i])
  {
    seq(|names|, i requires 0 <= i < |names| => NormalizeColumn(names[i]))
  }

  /** Stripping a string that has no surrounding whitespace returns it. */
  lemma {:induction false} StripStartNoop(s: string)
    requires |s| > 0 ==> !IsSpace(s[0])
    ensures StripStart(s) == s
  {
  }

  lemma {:induction false} StripEndNoop(s: string)
    requires |s| > 0 ==> !IsSpace(s[|s| - 1])
    ensures StripEnd(s) == s
  {
  }

  lemma StripNoop(s: string)
    requires |s| > 0 ==> !IsSpace(s[0]) && !IsSpace(s[|s| - 1])
    ensures Strip(s) == s
  {
    StripStartNoop(s);
    StripEndNoop(s);
  }

  /** Stripping twice is stripping once. */
  lemma StripIdempotent(s: string)
    ensures Strip(Strip(s)) == Strip(s)
  {
    StripNoop(Strip(s));
  }

  /** A header without spaces is left alone by the replacement. */
  lemma ReplaceSpacesNoop(s: string)
    requires ' ' !in s
    ensures ReplaceSpaces(s) == s
  {
    assert forall i :: 0 <= i < |s| ==> s[i] != ' ';
  }

  /** Normalising a normalised header changes nothing, so the clean-up can be
      applied to an already cleaned frame without effect. */
  lemma NormalizeIdempotent(name: string)
    ensures NormalizeColumn(NormalizeColumn(name)) == NormalizeColumn(name)
  {
    var n := NormalizeColumn(name);
    StripNoop(n);
    ReplaceSpacesNoop(n);
  }

  /** Cleaning an already cleaned header row changes no header. */
  lemma NormalizeColumnsIdempotent(names: seq<string>)
    ensures NormalizeColumns(NormalizeColumns(names)) == NormalizeColumns(names)
  {
    var once := NormalizeColumns(names);
    forall i | 0 <= i < |once|
      ensures NormalizeColumn(once[i]) == once[i]
    {
      NormalizeIdempotent(names[i]);
    }
  }
}
