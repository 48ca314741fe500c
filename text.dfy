/**
  ASCII models of the Python string primitives the generator relies on:
  `str.strip()`, `str.lower()`, `str.startswith` and `str.endswith`.
  Python's versions are Unicode-aware; these are exact on ASCII text only.
 */
module Text {

  /** `str.isspace()` restricted to ASCII: tab, line feed, vertical tab,
      form feed, carriage return (0x09..0x0D), the four information
      separators 0x1C..0x1F, and space (0x20). */
  predicate IsSpace(c: char) {
    9 <= c as int <= 13 || 28 <= c as int <= 32
  }

  predicate AllSpace(s: string) {
    forall i :: 0 <= i < |s| ==> IsSpace(s[i])
  }

  /** Neither end of `s` is whitespace: what `strip()` leaves behind. */
  predicate IsStripped(s: string) {
    s == [] || (!IsSpace(s[0]) && !IsSpace(s[|s| - 1]))
  }

  predicate StartsWith(s: string, prefix: string) {
    |prefix| <= |s| && s[..|prefix|] == prefix
  }

  predicate EndsWith(s: string, suffix: string) {
    |suffix| <= |s| && s[|s| - |suffix|..] == suffix
  }

  /** The number of whitespace characters `s` starts with: they are all
      whitespace, and the character after them (if any) is not. */
  function LeadingSpace(s: string): (n: nat)
    ensures n <= |s|
    ensures forall k :: 0 <= k < n ==> IsSpace(s[k])
    ensures n < |s| ==> !IsSpace(s[n])
  {
    if s != [] && IsSpace(s[0]) then 1 + LeadingSpace(s[1..]) else 0
  }

  /** The number of whitespace characters `s` ends with: they are all
      whitespace, and the character before them (if any) is not. */
  function TrailingSpace(s: string): (n: nat)
    ensures n <= |s|
    ensures forall k :: |s| - n <= k < |s| ==> IsSpace(s[k])
    ensures n < |s| ==> !IsSpace(s[|s| - 1 - n])
  {
    if s != [] && IsSpace(s[|s| - 1]) then 1 + TrailingSpace(s[..|s| - 1]) else 0
  }

  /** `str.strip()` with no argument: the stretch of `s` between its
      leading and its trailing whitespace. The result neither starts nor
      ends with whitespace; StripRemovesOnlySpace says what was cut off. */
  function Strip(s: string): (r: string)
    ensures |r| <= |s|
    ensures IsStripped(r)
  {
    var lead := LeadingSpace(s);
    if lead == |s| then [] else s[lead..|s| - TrailingSpace(s)]
  }

  /** Every character `strip()` cuts off is whitespace: `s` is the result
      with whitespace on either side. */
  lemma StripRemovesOnlySpace(s: string) returns (i: nat)
    ensures i + |Strip(s)| <= |s|
    ensures s == s[..i] + Strip(s) + s[i + |Strip(s)|..]
    ensures AllSpace(s[..i]) && AllSpace(s[i + |Strip(s)|..])
  {
    i := LeadingSpace(s);
    var r := Strip(s);
    if i == |s| {
      assert s == s[..i] + r + s[i..];
    } else {
      var j := |s| - TrailingSpace(s);
      assert r == s[i..j];
      assert s == s[..i] + s[i..j] + s[j..];
    }
  }

  /** `strip()` is determined by its specification: whatever whitespace
      surrounds a stripped string, stripping recovers exactly that string. */
  lemma StripUnique(a: string, m: string, b: string)
    requires AllSpace(a) && AllSpace(b) && IsStripped(m)
    ensures Strip(a + m + b) == m
  {
    var s := a + m + b;
    var lead := LeadingSpace(s);
    if m != [] {
      assert s[|a|] == m[0];
      assert lead == |a|;
      var trail := TrailingSpace(s);
      assert s[|s| - 1 - |b|] == m[|m| - 1];
      assert trail == |b|;
      assert s[lead..|s| - trail] == m;
    }
  }

  /** A string with no surrounding whitespace is left unchanged by `strip()`. */
  lemma StripKeepsStripped(s: string)
    requires IsStripped(s)
    ensures Strip(s) == s
  {
    assert [] + s + [] == s;
    StripUnique([], s, []);
  }

  lemma StripIdempotent(s: string)
    ensures Strip(Strip(s)) == Strip(s)
  {
    StripKeepsStripped(Strip(s));
  }

  lemma AllSpaceAppend(a: string, b: string)
    requires AllSpace(a) && AllSpace(b)
    ensures AllSpace(a + b)
  {
  }

  lemma Regroup(a: string, pre: string, m: string, post: string, b: string)
    ensures a + (pre + m + post) + b == (a + pre) + m + (post + b)
  {
  }

  /** Extra whitespace around the input does not change what `strip()` returns. */
  lemma StripAbsorbsSpace(a: string, s: string, b: string)
    requires AllSpace(a) && AllSpace(b)
    ensures Strip(a + s + b) == Strip(s)
  {
    var m := Strip(s);
    var i := StripRemovesOnlySpace(s);
    var pre, post := s[..i], s[i + |m|..];
    AllSpaceAppend(a, pre);
    AllSpaceAppend(post, b);
    Regroup(a, pre, m, post, b);
    StripUnique(a + pre, m, post + b);
  }

  /** Exactly the all-whitespace strings strip to the empty string. */
  lemma StripEmptyIffAllSpace(s: string)
    ensures Strip(s) == [] <==> AllSpace(s)
  {
    if AllSpace(s) {
      assert s + [] + [] == s;
      StripUnique(s, [], []);
    } else if Strip(s) == [] {
      var i := StripRemovesOnlySpace(s);
      AllSpaceAppend(s[..i], s[i..]);
    }
  }

  /** The ASCII half of `str.lower()` on one character. */
  function LowerChar(c: char): char {
    if 'A' <= c <= 'Z' then (c as int + 32) as char else c
  }

  /** `str.lower()` on ASCII: every letter A..Z is lowered, nothing else changes. */
  function Lower(s: string): (r: string)
    ensures |r| == |s|
    ensures forall i :: 0 <= i < |s| ==> r[i] == LowerChar(s[i])
  {
    if s == [] then [] else [LowerChar(s[0])] + Lower(s[1..])
  }

  lemma LowerAppend(a: string, b: string)
    ensures Lower(a + b) == Lower(a) + Lower(b)
  {
    assert forall i :: 0 <= i < |a + b| ==> Lower(a + b)[i] == (Lower(a) + Lower(b))[i];
  }
}
