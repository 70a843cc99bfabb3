/**
  The few functions of Go's strings package that the client uses, on strings
  as sequences of characters: Index (of a one-character needle), Contains,
  Split (on a one-character separator) and TrimSpace.
 */
module GoStrings {

  /** strings.Index(s, string(c)): the position of the first c, or -1. */
  function IndexChar(s: string, c: char): (i: int)
    ensures -1 <= i < |s|
    ensures i == -1 <==> c !in s
    ensures 0 <= i ==> s[i] == c && c !in s[..i]
  {
    if |s| == 0 then -1
    else if s[0] == c then 0
    else
      var j := IndexChar(s[1..], c);
      assert s[1..][..if j < 0 then 0 else j] == s[1..if j < 0 then 1 else j + 1];
      if j == -1 then -1 else j + 1
  }

  /** sub occurs in s starting at position i. */
  predicate OccursAt(s: string, sub: string, i: int) {
    0 <= i && i + |sub| <= |s| && s[i..i + |sub|] == sub
  }

  /** strings.Contains(s, sub). */
  function Contains(s: string, sub: string): (b: bool)
    ensures b <==> exists i :: OccursAt(s, sub, i)
    decreases |s|
  {
    if |sub| <= |s| && s[..|sub|] == sub then
      assert OccursAt(s, sub, 0);
      true
    else if |s| == 0 then
      false
    else
      var b := Contains(s[1..], sub);
      assert forall i :: OccursAt(s, sub, i + 1) <==> OccursAt(s[1..], sub, i) by {
        forall i ensures OccursAt(s, sub, i + 1) <==> OccursAt(s[1..], sub, i) {
          if 0 <= i && i + 1 + |sub| <= |s| {
            assert s[i + 1..i + 1 + |sub|] == s[1..][i..i + |sub|];
          }
        }
      }
      assert !OccursAt(s, sub, 0);
      assert b ==> exists i :: OccursAt(s, sub, i) by {
        if b {
          var i :| OccursAt(s[1..], sub, i);
          assert OccursAt(s, sub, i + 1);
        }
      }
      assert (exists i :: OccursAt(s, sub, i)) ==> b by {
        if i :| OccursAt(s, sub, i) {
          assert i != 0;
          assert OccursAt(s[1..], sub, i - 1);
        }
      }
      b
  }

  /** The inverse of Split: the parts glued back together with sep between them. */
  function Join(parts: seq<string>, sep: char): string
    requires |parts| >= 1
  {
    if |parts| == 1 then parts[0] else parts[0] + [sep] + Join(parts[1..], sep)
  }

  /**
    strings.Split(s, string(sep)): the maximal runs of s between separators.
    There is always at least one part (Split("", ",") is [""]), no part
    contains the separator, and joining the parts gives s back.
   */
  function Split(s: string, sep: char): (parts: seq<string>)
    ensures |parts| >= 1
    ensures forall k :: 0 <= k < |parts| ==> sep !in parts[k]
    ensures Join(parts, sep) == s
    decreases |s|
  {
    var i := IndexChar(s, sep);
    if i == -1 then [s]
    else
      var rest := Split(s[i + 1..], sep);
      var parts := [s[..i]] + rest;
      assert parts[1..] == rest;
      assert Join(parts, sep) == s[..i] + [sep] + s[i + 1..];
      assert s == s[..i] + [sep] + s[i + 1..];
      parts
  }

  /** The Unicode White_Space characters outside the range U+2000..U+200A. */
  const SpaceChars: set<char> := {
    ' ', '\t', '\n', '\U{000B}', '\U{000C}', '\r', '\U{0085}', '\U{00A0}', '\U{1680}',
    '\U{2028}', '\U{2029}', '\U{202F}', '\U{205F}', '\U{3000}' }

  /** unicode.IsSpace: the Unicode White_Space characters. */
  predicate IsSpace(c: char) {
    c in SpaceChars || ('\U{2000}' <= c <= '\U{200A}')
  }

  /** strings.TrimLeftFunc(s, unicode.IsSpace) (see TrimLeftMeaning). */
  function TrimLeft(s: string): string {
    if |s| > 0 && IsSpace(s[0]) then TrimLeft(s[1..]) else s
  }

  /** strings.TrimRightFunc(s, unicode.IsSpace) (see TrimRightMeaning). */
  function TrimRight(s: string): string {
    if |s| > 0 && IsSpace(s[|s| - 1]) then TrimRight(s[..|s| - 1]) else s
  }

  /** TrimLeft drops exactly the leading white space: a suffix of s that does not start with it. */
  lemma {:induction false} TrimLeftMeaning(s: string)
    ensures |TrimLeft(s)| <= |s| && TrimLeft(s) == s[|s| - |TrimLeft(s)|..]
    ensures forall k :: 0 <= k < |s| - |TrimLeft(s)| ==> IsSpace(s[k])
    ensures TrimLeft(s) == [] || !IsSpace(TrimLeft(s)[0])
  {
    if |s| > 0 && IsSpace(s[0]) {
      TrimLeftMeaning(s[1..]);
    }
  }

  /** TrimRight drops exactly the trailing white space: a prefix of s that does not end with it. */
  lemma {:induction false} TrimRightMeaning(s: string)
    ensures |TrimRight(s)| <= |s| && TrimRight(s) == s[..|TrimRight(s)|]
    ensures forall k :: |TrimRight(s)| <= k < |s| ==> IsSpace(s[k])
    ensures TrimRight(s) == [] || !IsSpace(TrimRight(s)[|TrimRight(s)| - 1])
  {
    if |s| > 0 && IsSpace(s[|s| - 1]) {
      TrimRightMeaning(s[..|s| - 1]);
    }
  }

  /** t is the piece of s that starts at i, and all of s around it is white space. */
  predicate TrimmedAt(s: string, t: string, i: int) {
    && 0 <= i && i + |t| <= |s| && t == s[i..i + |t|]
    && (forall k :: 0 <= k < i ==> IsSpace(s[k]))
    && (forall k :: i + |t| <= k < |s| ==> IsSpace(s[k]))
  }

  /** strings.TrimSpace: s without its leading and trailing white space (see TrimSpaceMeaning). */
  function TrimSpace(s: string): string {
    TrimRight(TrimLeft(s))
  }

  /**
    The result of TrimSpace is a contiguous piece of s, every character cut
    off is white space, and the result neither starts nor ends with white
    space; so it holds only characters of s.
   */
  lemma TrimSpaceMeaning(s: string)
    ensures exists i :: TrimmedAt(s, TrimSpace(s), i)
    ensures TrimSpace(s) == [] || (!IsSpace(TrimSpace(s)[0]) && !IsSpace(TrimSpace(s)[|TrimSpace(s)| - 1]))
    ensures forall c :: c in TrimSpace(s) ==> c in s
  {
    TrimLeftMeaning(s);
    TrimRightMeaning(TrimLeft(s));
    TrimBoth(s, TrimLeft(s), TrimSpace(s));
  }

  /** Trimming the left of s to l and then the right of l to t leaves t at |s| - |l| in s. */
  lemma TrimBoth(s: string, l: string, t: string)
    requires |l| <= |s| && l == s[|s| - |l|..]
    requires forall k :: 0 <= k < |s| - |l| ==> IsSpace(s[k])
    requires l == [] || !IsSpace(l[0])
    requires |t| <= |l| && t == l[..|t|]
    requires forall k :: |t| <= k < |l| ==> IsSpace(l[k])
    requires t == [] || !IsSpace(t[|t| - 1])
    ensures exists i :: TrimmedAt(s, t, i)
    ensures t == [] || (!IsSpace(t[0]) && !IsSpace(t[|t| - 1]))
    ensures forall c :: c in t ==> c in s
  {
    var i := |s| - |l|;
    assert t == s[i..i + |t|];
    forall k | i + |t| <= k < |s|
      ensures IsSpace(s[k])
    {
      assert s[k] == l[k - i];
    }
    assert t != [] ==> t[0] == l[0];
    forall c | c in t
      ensures c in s
    {
      var j :| 0 <= j < |t| && t[j] == c;
      assert s[i + j] == c;
    }
    assert TrimmedAt(s, t, i);
  }

  /** Index finds the first occurrence. */
  lemma IndexCharAt(s: string, c: char, i: int)
    requires 0 <= i < |s| && s[i] == c && c !in s[..i]
    ensures IndexChar(s, c) == i
  {
  }

  /** A string that neither starts nor ends with white space is its own TrimSpace. */
  lemma TrimSpaceOfTrimmed(s: string)
    requires s != [] && !IsSpace(s[0]) && !IsSpace(s[|s| - 1])
    ensures TrimSpace(s) == s
  {
  }
}
