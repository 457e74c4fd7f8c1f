/**
 * The Python `str` built-ins the assistant relies on, as functions over
 * `seq<char>` (one `char` per Unicode code point, as in a Python `str`):
 * `isspace`, `lower`, `split()`, `strip()`, `sep.join` and the substring
 * test `needle in hay`.
 */
module PyStr {

  /** `c.isspace()`: the characters Python's `split()` and `strip()` treat as white space. */
  predicate IsSpace(c: char) {
    ('\t' <= c <= '\r') || ('\U{1C}' <= c <= '\U{1F}') || c == ' ' || c == '\U{85}' || c == '\U{A0}'
    || c == '\U{1680}' || ('\U{2000}' <= c <= '\U{200A}') || c == '\U{2028}' || c == '\U{2029}'
    || c == '\U{202F}' || c == '\U{205F}' || c == '\U{3000}'
  }

  /** A token of `split()`: non-empty and free of white space. */
  predicate IsWord(w: string) {
    w != [] && forall i :: 0 <= i < |w| ==> !IsSpace(w[i])
  }

  /** Every character is white space (the empty string included). */
  predicate IsBlank(s: string) {
    forall i :: 0 <= i < |s| ==> IsSpace(s[i])
  }

  // ---------------------------------------------------------------------------
  // str.lower
  // ---------------------------------------------------------------------------

  /**
   * `c.lower()` for ASCII, Latin-1 and the Turkish capitals; every other
   * character is its own lower case. Capital I with dot above lowers to TWO
   * code points, 'i' followed by the combining dot above, as in Python.
   */
  function LowerChar(c: char): string {
    if 'A' <= c <= 'Z' then [(c as int + 32) as char]
    else if '\U{C0}' <= c <= '\U{DE}' && c != '\U{D7}' then [(c as int + 32) as char]
    else if c == '\U{11E}' || c == '\U{15E}' then [(c as int + 1) as char]
    else if c == '\U{130}' then ['i', '\U{307}']
    else [c]
  }

  /** Characters that `LowerChar` changes. */
  predicate IsUpper(c: char) {
    ('A' <= c <= 'Z') || ('\U{C0}' <= c <= '\U{DE}' && c != '\U{D7}')
    || c == '\U{11E}' || c == '\U{15E}' || c == '\U{130}'
  }

  /** `s.lower()` */
  function Lower(s: string): (r: string)
    decreases |s|
  {
    if s == [] then [] else LowerChar(s[0]) + Lower(s[1..])
  }

  lemma LowerCharSound(c: char)
    ensures forall i :: 0 <= i < |LowerChar(c)| ==> !IsUpper(LowerChar(c)[i])
    ensures IsUpper(c) <==> LowerChar(c) != [c]
    ensures IsSpace(c) ==> LowerChar(c) == [c]
  {
  }

  lemma {:induction false} LowerAppend(a: string, b: string)
    ensures Lower(a + b) == Lower(a) + Lower(b)
    decreases |a|
  {
    if a == [] {
      assert a + b == b;
    } else {
      assert (a + b)[1..] == a[1..] + b;
      LowerAppend(a[1..], b);
    }
  }

  /** Lower-casing leaves no character that lower-casing would change. */
  lemma {:induction false} LowerHasNoUpper(s: string)
    ensures forall i :: 0 <= i < |Lower(s)| ==> !IsUpper(Lower(s)[i])
    decreases |s|
  {
    if s != [] {
      LowerCharSound(s[0]);
      LowerHasNoUpper(s[1..]);
    }
  }

  /** A string without capitals is its own lower case. */
  lemma {:induction false} LowerOfLower(s: string)
    requires forall i :: 0 <= i < |s| ==> !IsUpper(s[i])
    ensures Lower(s) == s
    decreases |s|
  {
    if s != [] {
      LowerCharSound(s[0]);
      LowerOfLower(s[1..]);
    }
  }

  /** `lower()` never produces the dotless `ı` from another character. */
  lemma {:induction false} LowerMakesNoDotlessI(s: string)
    ensures 'ı' in Lower(s) ==> 'ı' in s
    decreases |s|
  {
    if s != [] {
      LowerMakesNoDotlessI(s[1..]);
      assert 'ı' in LowerChar(s[0]) ==> s[0] == 'ı';
      assert s == [s[0]] + s[1..];
    }
  }

  /** White space is untouched by `lower()`. */
  lemma {:induction false} LowerOfBlank(s: string)
    requires IsBlank(s)
    ensures Lower(s) == s
    decreases |s|
  {
    if s != [] {
      LowerCharSound(s[0]);
      LowerOfBlank(s[1..]);
    }
  }

  // ---------------------------------------------------------------------------
  // str.replace with one-character arguments
  // ---------------------------------------------------------------------------

  /** `s.replace(from, to)` where both are single characters. */
  function ReplaceChar(s: string, from: char, to: char): string {
    seq(|s|, i requires 0 <= i < |s| => if s[i] == from then to else s[i])
  }

  /** Replacing a character that does not occur changes nothing. */
  lemma ReplaceAbsent(s: string, from: char, to: char)
    requires forall i :: 0 <= i < |s| ==> s[i] != from
    ensures ReplaceChar(s, from, to) == s
  {
  }

  // ---------------------------------------------------------------------------
  // substring test: `needle in hay`
  // ---------------------------------------------------------------------------

  predicate IsPrefix(p: string, s: string) {
    |p| <= |s| && s[..|p|] == p
  }

  /** `needle in hay` for strings: the empty needle occurs everywhere. */
  predicate Contains(hay: string, needle: string) {
    exists i | 0 <= i <= |hay| :: IsPrefix(needle, hay[i..])
  }

  /** A needle found at a known position. */
  lemma ContainsAt(hay: string, needle: string, i: nat)
    requires i + |needle| <= |hay| && hay[i..i + |needle|] == needle
    ensures Contains(hay, needle)
  {
    assert IsPrefix(needle, hay[i..]);
  }

  /** A needle that occurs in `b` occurs in `a + b + c`. */
  lemma ContainsInMiddle(a: string, b: string, c: string, needle: string)
    requires Contains(b, needle)
    ensures Contains(a + b + c, needle)
  {
    var i :| 0 <= i <= |b| && IsPrefix(needle, b[i..]);
    assert (a + b + c)[|a| + i..|a| + i + |needle|] == b[i..i + |needle|];
    ContainsAt(a + b + c, needle, |a| + i);
  }

  /** A needle with a non-blank character is never found in a blank string. */
  lemma BlankContainsOnlyBlank(hay: string, needle: string)
    requires IsBlank(hay) && !IsBlank(needle)
    ensures !Contains(hay, needle)
  {
    var k :| 0 <= k < |needle| && !IsSpace(needle[k]);
    forall i | 0 <= i <= |hay| && |needle| <= |hay[i..]|
      ensures hay[i..][..|needle|] != needle
    {
      assert hay[i..][..|needle|][k] != needle[k];
    }
  }

  // ---------------------------------------------------------------------------
  // str.split() (no argument) and sep.join
  // ---------------------------------------------------------------------------

  function Flush(word: string): seq<string> {
    if word == [] then [] else [word]
  }

  /**
   * The tokens of `word + s` when `word` is a token being read: runs of
   * non-white-space characters, in order, white space never kept.
   */
  function SplitFrom(s: string, word: string): (r: seq<string>)
    requires forall i :: 0 <= i < |word| ==> !IsSpace(word[i])
    ensures forall k :: 0 <= k < |r| ==> IsWord(r[k])
    decreases |s|
  {
    if s == [] then Flush(word)
    else if IsSpace(s[0]) then Flush(word) + SplitFrom(s[1..], [])
    else SplitFrom(s[1..], word + [s[0]])
  }

  /** `s.split()` */
  function Split(s: string): (r: seq<string>)
    ensures forall k :: 0 <= k < |r| ==> IsWord(r[k])
  {
    SplitFrom(s, [])
  }

  /** `sep.join(parts)` */
  function Join(sep: string, parts: seq<string>): string
    decreases |parts|
  {
    if parts == [] then []
    else if |parts| == 1 then parts[0]
    else parts[0] + sep + Join(sep, parts[1..])
  }

  /** A white-space character ends the current token and starts afresh. */
  lemma {:induction false} SplitFromAcrossSpace(x: string, c: char, y: string, word: string)
    requires IsSpace(c)
    requires forall i :: 0 <= i < |word| ==> !IsSpace(word[i])
    ensures SplitFrom(x + [c] + y, word) == SplitFrom(x, word) + SplitFrom(y, [])
    decreases |x|
  {
    if x == [] {
      assert x + [c] + y == [c] + y;
      assert ([c] + y)[1..] == y;
    } else {
      assert (x + [c] + y)[0] == x[0];
      assert (x + [c] + y)[1..] == x[1..] + [c] + y;
      if IsSpace(x[0]) {
        SplitFromAcrossSpace(x[1..], c, y, []);
      } else {
        SplitFromAcrossSpace(x[1..], c, y, word + [x[0]]);
      }
    }
  }

  /** Splitting a string on a white-space character that joins two halves. */
  lemma SplitAcrossSpace(x: string, c: char, y: string)
    requires IsSpace(c)
    ensures Split(x + [c] + y) == Split(x) + Split(y)
  {
    SplitFromAcrossSpace(x, c, y, []);
  }

  /** A blank string has no tokens, and a string without tokens is blank. */
  lemma {:induction false} SplitFromBlank(s: string, word: string)
    requires forall i :: 0 <= i < |word| ==> !IsSpace(word[i])
    ensures SplitFrom(s, word) == [] <==> word == [] && IsBlank(s)
    decreases |s|
  {
    if s != [] {
      if IsSpace(s[0]) {
        SplitFromBlank(s[1..], []);
      } else {
        SplitFromBlank(s[1..], word + [s[0]]);
      }
    }
  }

  lemma SplitEmptyIffBlank(s: string)
    ensures Split(s) == [] <==> IsBlank(s)
  {
    SplitFromBlank(s, []);
  }

  // ---------------------------------------------------------------------------
  // str.strip() (no argument)
  // ---------------------------------------------------------------------------

  /** `s.lstrip()` */
  function StripLeft(s: string): (r: string)
    ensures |r| <= |s| && r == s[|s| - |r|..]
    ensures forall i :: 0 <= i < |s| - |r| ==> IsSpace(s[i])
    ensures r == [] || !IsSpace(r[0])
    decreases |s|
  {
    if s != [] && IsSpace(s[0]) then StripLeft(s[1..]) else s
  }

  /** `s.rstrip()` */
  function StripRight(s: string): (r: string)
    ensures |r| <= |s| && r == s[..|r|]
    ensures forall i :: |r| <= i < |s| ==> IsSpace(s[i])
    ensures r == [] || !IsSpace(r[|r| - 1])
    decreases |s|
  {
    if s != [] && IsSpace(s[|s| - 1]) then StripRight(s[..|s| - 1]) else s
  }

  /** `s.strip()` */
  function Strip(s: string): string {
    StripRight(StripLeft(s))
  }

  /** Stripping only removes characters. */
  lemma StripInside(s: string, c: char)
    ensures c in Strip(s) ==> c in s
  {
    var left := StripLeft(s);
    var r := StripRight(left);
    if c in r {
      var j :| 0 <= j < |r| && r[j] == c;
      assert left[j] == c;
      assert s[|s| - |left| + j] == c;
    }
  }

  /** A string that neither begins nor ends with white space is its own strip. */
  lemma StripOfStripped(s: string)
    requires s == [] || (!IsSpace(s[0]) && !IsSpace(s[|s| - 1]))
    ensures Strip(s) == s
  {
  }
}
