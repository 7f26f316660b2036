/** The string operations of Python that the content model uses: case mapping and strip. */
module Strings {
  import opened Base

  /** The position of the first occurrence of `c` in `s`. */
  function Find(s: string, c: char): (r: Option<nat>)
    ensures r.Some? ==> r.value < |s| && s[r.value] == c && c !in s[..r.value]
    ensures r.None? ==> c !in s
  {
    if s == [] then None
    else if s[0] == c then Some(0)
    else match Find(s[1..], c)
      case None => None
      case Some(i) => Some(i + 1)
  }

  /** A character found in `a` is found at the same place in any extension of `a`. */
  lemma {:induction false} FindAppend(a: string, b: string, c: char)
    requires Find(a, c).Some?
    ensures Find(a + b, c) == Find(a, c)
  {
    if a[0] != c {
      assert (a + b)[1..] == a[1..] + b;
      FindAppend(a[1..], b, c);
    }
  }

  /** `sub in s` for text: `sub` occurs in `s` at some position. */
  predicate Contains(s: string, sub: string) {
    exists i :: 0 <= i <= |s| && sub <= s[i..]
  }

  /** `str.lower()` on one character; only the ASCII letters are mapped. */
  function LowerChar(c: char): char {
    if 'A' <= c <= 'Z' then (c as int + 32) as char else c
  }

  /** `str.upper()` on one character; only the ASCII letters are mapped. */
  function UpperChar(c: char): char {
    if 'a' <= c <= 'z' then (c as int - 32) as char else c
  }

  function Lower(s: string): string {
    seq(|s|, i requires 0 <= i < |s| => LowerChar(s[i]))
  }

  function Upper(s: string): string {
    seq(|s|, i requires 0 <= i < |s| => UpperChar(s[i]))
  }

  /** `unicode.isspace()`: the characters Python 2.7 treats as white space. */
  predicate IsSpace(c: char) {
    ('\t' <= c <= '\r') || ('\U{1c}' <= c <= ' ') || c == '\U{85}' || c == '\U{a0}'
    || c == '\U{1680}' || c == '\U{180e}' || ('\U{2000}' <= c <= '\U{200a}') || c == '\U{2028}'
    || c == '\U{2029}' || c == '\U{202f}' || c == '\U{205f}' || c == '\U{3000}'
  }

  /** `unicode.lstrip()`: drops the leading white space. */
  function StripStart(s: string): (r: string)
    ensures |r| <= |s| && r == s[|s| - |r|..]
    ensures forall i :: 0 <= i < |s| - |r| ==> IsSpace(s[i])
    ensures r == [] || !IsSpace(r[0])
  {
    if s == [] || !IsSpace(s[0]) then s else StripStart(s[1..])
  }

  /** `unicode.rstrip()`: drops the trailing white space. */
  function StripEnd(s: string): (r: string)
    ensures |r| <= |s| && r == s[..|r|]
    ensures forall i :: |r| <= i < |s| ==> IsSpace(s[i])
    ensures r == [] || !IsSpace(r[|r| - 1])
  {
    if s == [] || !IsSpace(s[|s| - 1]) then s else StripEnd(s[..|s| - 1])
  }

  /** `unicode.strip()`: the result is a slice of the input that neither starts nor ends
      with white space, and everything cut off on either side is white space. */
  function Strip(s: string): (r: string)
    ensures exists i, j :: 0 <= i <= j <= |s| && r == s[i..j]
                          && (forall k :: 0 <= k < i ==> IsSpace(s[k]))
                          && (forall k :: j <= k < |s| ==> IsSpace(s[k]))
    ensures r == [] || (!IsSpace(r[0]) && !IsSpace(r[|r| - 1]))
  {
    var t := StripStart(s);
    var r := StripEnd(t);
    assert r == s[|s| - |t|..|s| - |t| + |r|];
    r
  }

  /** Stripping is idempotent: a stripped name is left alone by a second strip. */
  lemma StripIdempotent(s: string)
    ensures Strip(Strip(s)) == Strip(s)
  {
    var r := Strip(s);
    assert StripStart(r) == r;
    assert StripEnd(r) == r;
  }

  /** A string that starts with a non-space character keeps that character in front. */
  lemma StripKeepsFirst(s: string)
    requires s != [] && !IsSpace(s[0])
    ensures Strip(s) != [] && Strip(s)[0] == s[0]
  {
    var r := Strip(s);
    var i, j :| 0 <= i <= j <= |s| && r == s[i..j]
                && (forall k :: 0 <= k < i ==> IsSpace(s[k]))
                && (forall k :: j <= k < |s| ==> IsSpace(s[k]));
    assert i == 0;
    assert j > 0;
  }
}
