/**
 * The handful of Python built-ins the parser leans on, with Python's own
 * semantics: clamped (and negative-index) slicing, `str.startswith`,
 * `str.replace` of a single character and `str.lower` (ASCII letters only).
 */
module Py {

  /** Where a slice bound `n` lands in a sequence of length `len`: Python
      clamps a bound past either end, and counts a negative bound from the end. */
  function SliceIndex(len: nat, n: int): (i: nat)
    ensures i <= len
    ensures 0 <= n <= len ==> i == n
    ensures n < 0 && -n <= len ==> i == len + n
    ensures n > len ==> i == len
    ensures n < -(len as int) ==> i == 0
  {
    if n >= 0 then (if n <= len then n else len)
    else (if len + n >= 0 then len + n else 0)
  }

  /** `s[:n]` */
  function Take<T>(s: seq<T>, n: int): seq<T>
  {
    s[..SliceIndex(|s|, n)]
  }

  /** `s[n:]` */
  function Drop<T>(s: seq<T>, n: int): seq<T>
  {
    s[SliceIndex(|s|, n)..]
  }

  /** `s[:n] + s[n:] == s` for every integer `n`, however far out of range. */
  lemma TakeDrop<T>(s: seq<T>, n: int)
    ensures Take(s, n) + Drop(s, n) == s
    ensures |Take(s, n)| + |Drop(s, n)| == |s|
  {
    assert s[..SliceIndex(|s|, n)] + s[SliceIndex(|s|, n)..] == s;
  }

  /** `s.startswith(prefix)` */
  predicate StartsWith(s: string, prefix: string)
  {
    |prefix| <= |s| && s[..|prefix|] == prefix
  }

  /** A one- or two-character prefix is a test of the leading characters. */
  lemma StartsWithChars(s: string, prefix: string)
    requires |prefix| <= 2
    ensures StartsWith(s, prefix) <==>
              |prefix| <= |s| && (forall i :: 0 <= i < |prefix| ==> s[i] == prefix[i])
  {
    if |prefix| <= |s| && (forall i :: 0 <= i < |prefix| ==> s[i] == prefix[i]) {
      assert s[..|prefix|] == prefix;
    }
  }

  function LowerChar(c: char): char
  {
    if 'A' <= c <= 'Z' then (c as int + 32) as char else c
  }

  /** `s.lower()`, restricted to the ASCII letters. */
  function Lower(s: string): (r: string)
    ensures |r| == |s|
    ensures forall i :: 0 <= i < |s| ==> r[i] == LowerChar(s[i])
  {
    if s == [] then [] else [LowerChar(s[0])] + Lower(s[1..])
  }

  /** `s.replace(old, new)` for single characters. */
  function Replace(s: string, from: char, to: char): (r: string)
    ensures |r| == |s|
    ensures forall i :: 0 <= i < |s| ==> r[i] == if s[i] == from then to else s[i]
  {
    if s == [] then [] else [if s[0] == from then to else s[0]] + Replace(s[1..], from, to)
  }

  /** `list.reverse()`, as a value. */
  function Reverse<T>(s: seq<T>): (r: seq<T>)
    ensures |r| == |s|
    ensures forall i :: 0 <= i < |s| ==> r[i] == s[|s| - 1 - i]
  {
    if s == [] then [] else Reverse(s[1..]) + [s[0]]
  }
}
