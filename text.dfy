/** `String.prototype.trim` as the send guard uses it: strip leading and
    trailing white space and line terminators. */
module Text {

  /** The characters ECMAScript's `trim` removes: the WhiteSpace code points
      (tab, vertical tab, form feed, space, no-break space, the byte order
      mark and every other space separator) and the LineTerminator code
      points (line feed, carriage return, line and paragraph separator). */
  predicate IsWhitespace(c: char)
  {
    || c == '\t' || c == '\n' || c == '\U{000B}' || c == '\U{000C}' || c == '\r'
    || c == ' ' || c == '\U{00A0}' || c == '\U{1680}'
    || ('\U{2000}' <= c <= '\U{200A}')
    || c == '\U{2028}' || c == '\U{2029}' || c == '\U{202F}' || c == '\U{205F}'
    || c == '\U{3000}' || c == '\U{FEFF}'
  }

  /** True when every character of `s` is white space (including `s == ""`). */
  predicate IsBlank(s: string)
  {
    forall i :: 0 <= i < |s| ==> IsWhitespace(s[i])
  }

  /** The position of the first character at or after `i` that is not white
      space, or `|s|` when there is none. */
  function SkipLeading(s: string, i: nat): (j: nat)
    requires i <= |s|
    ensures i <= j <= |s|
    ensures forall k :: i <= k < j ==> IsWhitespace(s[k])
    ensures j == |s| || !IsWhitespace(s[j])
    decreases |s| - i
  {
    if i < |s| && IsWhitespace(s[i]) then SkipLeading(s, i + 1) else i
  }

  /** The end of the text in `s[lo..j]` once trailing white space is
      dropped: every character from the result up to `j` is white space,
      and the character just before the result (if it is after `lo`) is
      not. */
  function SkipTrailing(s: string, lo: nat, j: nat): (k: nat)
    requires lo <= j <= |s|
    ensures lo <= k <= j
    ensures forall m :: k <= m < j ==> IsWhitespace(s[m])
    ensures k == lo || !IsWhitespace(s[k - 1])
  {
    if lo < j && IsWhitespace(s[j - 1]) then SkipTrailing(s, lo, j - 1) else j
  }

  /** `s.trim()`: the text between the leading and the trailing white
      space. */
  function Trim(s: string): (r: string)
    ensures |r| <= |s|
    ensures r == [] || (!IsWhitespace(r[0]) && !IsWhitespace(r[|r| - 1]))
  {
    var lo := SkipLeading(s, 0);
    s[lo..SkipTrailing(s, lo, |s|)]
  }

  /** The trimmed string is a contiguous slice of `s`, and everything cut
      off on either side is white space. */
  lemma TrimIsSlice(s: string)
    ensures exists lo :: 0 <= lo <= |s| - |Trim(s)| && Trim(s) == s[lo..lo + |Trim(s)|]
                         && IsBlank(s[..lo]) && IsBlank(s[lo + |Trim(s)|..])
  {
    var lo := SkipLeading(s, 0);
    var hi := SkipTrailing(s, lo, |s|);
    var before, after := s[..lo], s[hi..];
    assert IsBlank(before) by {
      forall k | 0 <= k < |before| ensures IsWhitespace(before[k]) {
        assert before[k] == s[k];
      }
    }
    assert IsBlank(after) by {
      forall k | 0 <= k < |after| ensures IsWhitespace(after[k]) {
        assert after[k] == s[hi + k];
      }
    }
    assert Trim(s) == s[lo..hi];
  }

  /** `!s.trim()` holds exactly when `s` is empty or consists of white space
      only. */
  lemma TrimEmptyIffBlank(s: string)
    ensures Trim(s) == [] <==> IsBlank(s)
  {
  }
}
