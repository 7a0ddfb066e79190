/** The character classes and string operations that the changelog parser
    relies on, with Python's meaning: `\s` in a `str` pattern, `str.lower()`,
    `str.strip("\n")` and substring search. */
module Text {

  /** Python's `\s` on `str` patterns: the characters for which `str.isspace()`
      holds. */
  predicate IsSpace(c: char)
    ensures c < '\U{80}' ==>
              (IsSpace(c) <==> c in " \t\n\r\U{0B}\U{0C}\U{1C}\U{1D}\U{1E}\U{1F}")
  {
    || ('\t' <= c <= '\r')
    || ('\U{1C}' <= c <= '\U{1F}')
    || c == ' '
    || c == '\U{85}'
    || c == '\U{A0}'
    || c == '\U{1680}'
    || ('\U{2000}' <= c <= '\U{200A}')
    || c == '\U{2028}'
    || c == '\U{2029}'
    || c == '\U{202F}'
    || c == '\U{205F}'
    || c == '\U{3000}'
  }

  predicate IsDigit(c: char)
  {
    '0' <= c <= '9'
  }

  /** `[a-zA-Z0-9]` (no IGNORECASE, so ASCII only). */
  predicate IsAsciiAlnum(c: char)
  {
    ('a' <= c <= 'z') || ('A' <= c <= 'Z') || IsDigit(c)
  }

  /** Lower-case form of one character, as `str.lower()` writes it.  ASCII
      letters map to ASCII letters; the only other characters whose lower-case
      form contains an ASCII character are U+0130 (LATIN CAPITAL LETTER I WITH
      DOT ABOVE, lower-cased to "i" followed by U+0307) and U+212A (KELVIN SIGN,
      lower-cased to "k").  Every other character is kept: its real lower-case
      form holds no ASCII character either, so no search for an ASCII token can
      tell the two apart. */
  function LowerChar(c: char): (r: string)
    ensures |r| >= 1
    ensures 'A' <= c <= 'Z' ==> r == [c + ('a' - 'A')]
    ensures c < '\U{80}' && !('A' <= c <= 'Z') ==> r == [c]
  {
    if 'A' <= c <= 'Z' then [c + ('a' - 'A')]
    else if c == '\U{130}' then "i\U{307}"
    else if c == '\U{212A}' then "k"
    else [c]
  }

  /** `str.lower()`. */
  function Lower(s: string): (r: string)
    ensures |r| >= |s|
  {
    if s == [] then [] else LowerChar(s[0]) + Lower(s[1..])
  }

  /** `t in s` for strings: `t` occurs in `s` at some offset. */
  predicate IsSubstring(t: string, s: string)
    ensures IsSubstring(t, s) ==> |t| <= |s|
    ensures t == [] ==> IsSubstring(t, s)
  {
    t <= s || (s != [] && IsSubstring(t, s[1..]))
  }

  /** On ASCII text `str.lower()` maps character by character. */
  lemma {:induction false} LowerAscii(s: string)
    requires forall k :: 0 <= k < |s| ==> s[k] < '\U{80}'
    ensures |Lower(s)| == |s|
    ensures forall k :: 0 <= k < |s| ==> [Lower(s)[k]] == LowerChar(s[k])
  {
    if s != [] {
      LowerAscii(s[1..]);
      assert Lower(s) == LowerChar(s[0]) + Lower(s[1..]);
      forall k | 0 <= k < |s|
        ensures [Lower(s)[k]] == LowerChar(s[k])
      {
        if k > 0 {
          assert s[1..][k - 1] == s[k];
        }
      }
    }
  }

  /** Text with no upper-case letter, ASCII only, is its own lower case. */
  lemma {:induction false} LowerOfLowercase(s: string)
    requires forall k :: 0 <= k < |s| ==> s[k] < '\U{80}' && !('A' <= s[k] <= 'Z')
    ensures Lower(s) == s
  {
    if s != [] {
      var t := s[1..];
      assert forall k :: 0 <= k < |t| ==> t[k] == s[k + 1];
      LowerOfLowercase(t);
      assert LowerChar(s[0]) == [s[0]];
      assert [s[0]] + t == s;
    }
  }

  /** A capitalised ASCII word lowers to its first letter lowered, followed by
      the rest unchanged. */
  lemma LowerCapitalised(s: string)
    requires s != [] && 'A' <= s[0] <= 'Z'
    requires forall k :: 1 <= k < |s| ==> s[k] < '\U{80}' && !('A' <= s[k] <= 'Z')
    ensures Lower(s) == [s[0] + ('a' - 'A')] + s[1..]
  {
    var t := s[1..];
    assert forall k :: 0 <= k < |t| ==> t[k] == s[k + 1];
    LowerOfLowercase(t);
  }

  /** `t` occurs in `s` starting at offset `i`. */
  predicate OccursAt(t: string, s: string, i: int)
  {
    0 <= i && i + |t| <= |s| && s[i..i + |t|] == t
  }

  /** The recursive search agrees with the textbook definition: some window of
      `s` equals `t`. */
  lemma {:induction false} IsSubstringIff(t: string, s: string)
    ensures IsSubstring(t, s) <==> exists i :: OccursAt(t, s, i)
  {
    if t <= s {
      assert OccursAt(t, s, 0);
    } else if s == [] {
    } else {
      IsSubstringIff(t, s[1..]);
      if IsSubstring(t, s[1..]) {
        var i :| OccursAt(t, s[1..], i);
        assert s[i + 1..i + 1 + |t|] == s[1..][i..i + |t|];
        assert OccursAt(t, s, i + 1);
      }
      if exists i :: OccursAt(t, s, i) {
        var i :| OccursAt(t, s, i);
        assert i != 0;
        assert s[1..][i - 1..i - 1 + |t|] == s[i..i + |t|];
        assert OccursAt(t, s[1..], i - 1);
      }
    }
  }

  /** A string in which some character of `t` never appears does not contain
      `t`. */
  lemma SubstringNeedsChar(t: string, s: string, m: nat)
    requires m < |t| && forall k :: 0 <= k < |s| ==> s[k] != t[m]
    ensures !IsSubstring(t, s)
  {
    IsSubstringIff(t, s);
  }

  /** Drops the leading '\n' characters. */
  function DropLeadingNewlines(s: string): (r: string)
    ensures |r| <= |s| && r == s[|s| - |r|..]
    ensures r == [] || r[0] != '\n'
  {
    if s != [] && s[0] == '\n' then DropLeadingNewlines(s[1..]) else s
  }

  /** What DropLeadingNewlines removes is all '\n'. */
  lemma {:induction false} DroppedLeading(s: string)
    ensures forall k :: 0 <= k < |s| - |DropLeadingNewlines(s)| ==> s[k] == '\n'
    decreases |s|
  {
    if s != [] && s[0] == '\n' {
      DroppedLeading(s[1..]);
      assert forall k :: 1 <= k < |s| ==> s[k] == s[1..][k - 1];
    }
  }

  /** Drops the trailing '\n' characters. */
  function DropTrailingNewlines(s: string): (r: string)
    ensures |r| <= |s| && r == s[..|r|]
    ensures r == [] || r[|r| - 1] != '\n'
  {
    if s != [] && s[|s| - 1] == '\n' then DropTrailingNewlines(s[..|s| - 1]) else s
  }

  /** What DropTrailingNewlines removes is all '\n'. */
  lemma {:induction false} DroppedTrailing(s: string)
    ensures forall k :: |DropTrailingNewlines(s)| <= k < |s| ==> s[k] == '\n'
    decreases |s|
  {
    if s != [] && s[|s| - 1] == '\n' {
      DroppedTrailing(s[..|s| - 1]);
    }
  }

  /** `r` is the window of `s` at offset `i`, and everything of `s` outside
      that window is '\n'. */
  predicate NewlinesAround(s: string, r: string, i: int)
  {
    && 0 <= i && i + |r| <= |s| && r == s[i..i + |r|]
    && (forall k :: 0 <= k < i ==> s[k] == '\n')
    && (forall k :: i + |r| <= k < |s| ==> s[k] == '\n')
  }

  /** `s.strip("\n")`: `s` with every leading and trailing '\n' removed. */
  function StripNewlines(s: string): (r: string)
    ensures |r| <= |s|
    ensures r == [] || (r[0] != '\n' && r[|r| - 1] != '\n')
  {
    DropTrailingNewlines(DropLeadingNewlines(s))
  }

  /** What `strip("\n")` leaves is a window of the line with only '\n'
      outside it. */
  lemma StripNewlinesWindow(s: string)
    ensures exists i :: NewlinesAround(s, StripNewlines(s), i)
  {
    var t := DropLeadingNewlines(s);
    var r := DropTrailingNewlines(t);
    DroppedLeading(s);
    DroppedTrailing(t);
    assert r == s[|s| - |t|..|s| - |t| + |r|];
    assert StripNewlines(s) == r;
    assert NewlinesAround(s, r, |s| - |t|);
  }

  /** A line read from a file, "\n"-terminated, strips back to its text
      when that text neither starts nor ends with '\n'. */
  lemma StripLineEnd(t: string)
    requires t == [] || (t[0] != '\n' && t[|t| - 1] != '\n')
    ensures StripNewlines(t + "\n") == t
  {
    if t == [] {
      assert DropLeadingNewlines("\n") == DropLeadingNewlines("");
    } else {
      assert (t + "\n")[0] == t[0];
      KeepsLeading(t + "\n");
      DropsLastNewline(t);
    }
  }

  /** Text that does not open with '\n' loses nothing at the front. */
  lemma KeepsLeading(s: string)
    requires s != [] && s[0] != '\n'
    ensures DropLeadingNewlines(s) == s
  {
  }

  /** One '\n' appended to text that does not end with '\n' is all that is
      dropped at the back. */
  lemma DropsLastNewline(t: string)
    requires t != [] && t[|t| - 1] != '\n'
    ensures DropTrailingNewlines(t + "\n") == t
  {
    var s := t + "\n";
    assert s[..|s| - 1] == t;
  }
}
