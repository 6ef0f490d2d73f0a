/** The Option type returned by the searches and by the notice parser. */
module Wrappers {
  datatype Option<+T> = None | Some(value: T)
}

/**
  Character classes, substring tests, `str.lower()` and `str.strip()`, and the
  greedy run of one character class that regular expressions build on.
 */
module Text {
  import opened Wrappers

  /** Python's `\s` for `str` patterns and `str.strip()`: the characters `str.isspace` accepts. */
  predicate IsSpace(c: char) {
    var n := c as int;
    (9 <= n <= 13) || (28 <= n <= 32) || n == 0x85 || n == 0xA0 || n == 0x1680
    || (0x2000 <= n <= 0x200A) || n == 0x2028 || n == 0x2029 || n == 0x202F
    || n == 0x205F || n == 0x3000
  }

  /** `\w`, restricted to ASCII letters, digits and underscore. */
  predicate IsWordChar(c: char) {
    ('a' <= c <= 'z') || ('A' <= c <= 'Z') || ('0' <= c <= '9') || c == '_'
  }

  /** The class `[0-9.,]`. */
  predicate IsPriceChar(c: char) {
    ('0' <= c <= '9') || c == '.' || c == ','
  }

  /** The regex `.`: anything but a newline. */
  predicate NotNewline(c: char) {
    c != '\n'
  }

  predicate IsUpper(c: char) {
    'A' <= c <= 'Z'
  }

  /** `str.lower()` on ASCII letters. */
  function LowerChar(c: char): char {
    if IsUpper(c) then (c as int + 32) as char else c
  }

  function Lower(s: string): (r: string)
    ensures |r| == |s|
    ensures NoUpper(r)
    ensures forall i :: 0 <= i < |s| && !IsUpper(s[i]) ==> r[i] == s[i]
    ensures forall i :: 0 <= i < |s| && IsUpper(s[i]) ==> r[i] as int == s[i] as int + 32
  {
    seq(|s|, i requires 0 <= i < |s| => LowerChar(s[i]))
  }

  predicate NoUpper(s: string) {
    forall i :: 0 <= i < |s| ==> !IsUpper(s[i])
  }

  /** `p` occurs in `s` starting at index `i`. */
  predicate MatchesAt(s: string, p: string, i: nat) {
    i + |p| <= |s| && s[i..i + |p|] == p
  }

  /** Python's `p in s` for strings. */
  predicate Contains(s: string, p: string) {
    exists i :: 0 <= i <= |s| && MatchesAt(s, p, i)
  }

  /**
    The end of the maximal run of `inClass` characters that starts at `k`:
    what a greedy `[class]*` consumes from `k`.
   */
  function RunEnd(s: string, k: nat, inClass: char -> bool): (e: nat)
    requires k <= |s|
    ensures k <= e <= |s|
    ensures forall m :: k <= m < e ==> inClass(s[m])
    ensures e == |s| || !inClass(s[e])
    decreases |s| - k
  {
    if k == |s| || !inClass(s[k]) then k else RunEnd(s, k + 1, inClass)
  }

  /** A run that holds up to `b` and fails at `b` (or reaches the end) ends at `b`. */
  lemma RunEndAt(s: string, k: nat, b: nat, inClass: char -> bool)
    requires k <= b <= |s|
    requires forall m :: k <= m < b ==> inClass(s[m])
    requires b == |s| || !inClass(s[b])
    ensures RunEnd(s, k, inClass) == b
  {
  }

  predicate AllSpace(s: string) {
    forall i :: 0 <= i < |s| ==> IsSpace(s[i])
  }

  /** Neither end of `r` is whitespace. */
  predicate Stripped(r: string) {
    r == [] || (!IsSpace(r[0]) && !IsSpace(r[|r| - 1]))
  }

  /** `r` is `s[i..j]` with only whitespace cut off on either side. */
  ghost predicate StripsTo(s: string, r: string, i: nat, j: nat) {
    i <= j <= |s| && r == s[i..j] && AllSpace(s[..i]) && AllSpace(s[j..])
  }

  /** The end of `s[lo..hi]` once trailing whitespace is cut off. */
  function TrimEnd(s: string, lo: nat, hi: nat): (j: nat)
    requires lo <= hi <= |s|
    ensures lo <= j <= hi
    ensures forall m :: j <= m < hi ==> IsSpace(s[m])
    ensures j == lo || !IsSpace(s[j - 1])
    decreases hi
  {
    if hi == lo || !IsSpace(s[hi - 1]) then hi else TrimEnd(s, lo, hi - 1)
  }

  /** Python's `str.strip()` with no argument. */
  function Strip(s: string): (r: string)
    ensures Stripped(r)
    ensures exists i: nat, j: nat :: StripsTo(s, r, i, j)
  {
    var i := RunEnd(s, 0, IsSpace);
    var j := TrimEnd(s, i, |s|);
    assert StripsTo(s, s[i..j], i, j);
    s[i..j]
  }

  /** Stripping only removes characters. */
  lemma StripWithin(t: string)
    ensures forall c :: c in Strip(t) ==> c in t
  {
  }
}
