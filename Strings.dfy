/** The part of Java's `String` used by the core: `trim`. */
module Strings {

  /** `String.trim` treats every character whose code is at most U+0020 as removable. */
  predicate IsBlank(c: char) {
    c <= ' '
  }

  /** `s` without its leading blank characters. */
  function StripLeading(s: string): (r: string)
    ensures |r| <= |s| && r == s[|s| - |r|..]
    ensures forall k :: 0 <= k < |s| - |r| ==> IsBlank(s[k])
    ensures r != [] ==> !IsBlank(r[0])
  {
    if s != [] && IsBlank(s[0]) then StripLeading(s[1..]) else s
  }

  /** `s` without its trailing blank characters. */
  function StripTrailing(s: string): (r: string)
    ensures |r| <= |s| && r == s[..|r|]
    ensures forall k :: |r| <= k < |s| ==> IsBlank(s[k])
    ensures r != [] ==> !IsBlank(r[|r| - 1])
  {
    if s != [] && IsBlank(s[|s| - 1]) then StripTrailing(s[..|s| - 1]) else s
  }

  /** Java's `String.trim`: the longest infix of `s` that starts and ends with a non-blank character. */
  function Trim(s: string): (r: string)
    ensures var i := |s| - |StripLeading(s)|;
      i + |r| <= |s| && r == s[i..i + |r|] &&
      (forall k :: 0 <= k < i ==> IsBlank(s[k])) &&
      (forall k :: i + |r| <= k < |s| ==> IsBlank(s[k]))
    ensures r != [] ==> !IsBlank(r[0]) && !IsBlank(r[|r| - 1])
    ensures r == [] ==> forall k :: 0 <= k < |s| ==> IsBlank(s[k])
  {
    StripTrailing(StripLeading(s))
  }

  /** Trimming leaves a string alone exactly when it neither starts nor ends with a blank. */
  lemma TrimIdentity(s: string)
    ensures Trim(s) == s <==> (s == [] || (!IsBlank(s[0]) && !IsBlank(s[|s| - 1])))
  {
  }

  /** One trailing space after a string with non-blank ends is all that trimming removes. */
  lemma TrimTrailingSpace(s: string)
    requires s != [] && !IsBlank(s[0]) && !IsBlank(s[|s| - 1])
    ensures Trim(s + " ") == s
  {
    var t := s + " ";
    assert StripLeading(t) == t;
    assert t[..|t| - 1] == s;
    assert StripTrailing(t) == StripTrailing(s);
  }
}
