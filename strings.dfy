/**
 * The JavaScript string operations the core relies on: searching, `replace` with a
 * string pattern, `split`, `padStart`, `Number.prototype.toString` and an ASCII
 * `toLowerCase`.
 */
module Strings {
  import opened Results

  predicate IsDigit(c: char) { '0' <= c <= '9' }

  predicate AllDigits(s: string) { forall k :: 0 <= k < |s| ==> IsDigit(s[k]) }

  predicate NoDigits(s: string) { forall k :: 0 <= k < |s| ==> !IsDigit(s[k]) }

  /** `sub` occurs in `s` starting at index `i`. */
  predicate OccursAt(s: string, sub: string, i: nat)
  {
    i + |sub| <= |s| && s[i..i + |sub|] == sub
  }

  predicate Contains(s: string, sub: string)
  {
    exists i: nat | i <= |s| :: OccursAt(s, sub, i)
  }

  /** The first occurrence of `sub` in `s` at or after `from`. */
  function IndexFrom(s: string, sub: string, from: nat): (r: Option<nat>)
    ensures r.Some? ==> from <= r.value && OccursAt(s, sub, r.value)
    ensures r.Some? ==> forall j: nat :: from <= j < r.value ==> !OccursAt(s, sub, j)
    ensures r.None? ==> forall j: nat :: from <= j ==> !OccursAt(s, sub, j)
    decreases |s| - from
  {
    if from + |sub| > |s| then None
    else if OccursAt(s, sub, from) then Some(from)
    else IndexFrom(s, sub, from + 1)
  }

  /** `String.prototype.indexOf`, with -1 as None. */
  function IndexOf(s: string, sub: string): (r: Option<nat>)
    ensures r.Some? ==> OccursAt(s, sub, r.value) && forall j: nat :: j < r.value ==> !OccursAt(s, sub, j)
    ensures r.None? <==> !Contains(s, sub)
  {
    IndexFrom(s, sub, 0)
  }

  /** An occurrence with none before it is the first one. */
  lemma IndexOfUnique(s: string, sub: string, i: nat)
    requires OccursAt(s, sub, i) && forall j: nat :: j < i ==> !OccursAt(s, sub, j)
    ensures IndexOf(s, sub) == Some(i)
  {
  }

  /** A one-character string occurs exactly where that character stands. */
  lemma OccursAtChar(s: string, c: char, j: nat)
    ensures OccursAt(s, [c], j) <==> j < |s| && s[j] == c
  {
    if j < |s| && s[j] == c {
      assert s[j..j + 1] == [c];
    }
  }

  /** `s.replace(pattern, replacement)` with a string pattern: only the first occurrence. */
  function ReplaceFirst(s: string, pattern: string, replacement: string): string
  {
    match IndexOf(s, pattern)
    case None => s
    case Some(i) => s[..i] + replacement + s[i + |pattern|..]
  }

  /** `s.split(sep)` for a non-empty separator: the pieces between successive occurrences. */
  function SplitOn(s: string, sep: string): (r: seq<string>)
    requires sep != ""
    ensures |r| >= 1
    decreases |s|
  {
    match IndexOf(s, sep)
    case None => [s]
    case Some(i) => [s[..i]] + SplitOn(s[i + |sep|..], sep)
  }

  /** `s.split(sep)`: the empty separator splits into single characters. */
  function Split(s: string, sep: string): seq<string>
  {
    if sep == "" then seq(|s|, k requires 0 <= k < |s| => [s[k]]) else SplitOn(s, sep)
  }

  function DigitChar(d: nat): char
    requires d < 10
  {
    ('0' as int + d) as char
  }

  /** `n.toString()` for a non-negative integer. */
  function NatToString(n: nat): (r: string)
    ensures |r| >= 1 && AllDigits(r)
    decreases n
  {
    if n < 10 then [DigitChar(n)] else NatToString(n / 10) + [DigitChar(n % 10)]
  }

  function Pow10(k: nat): (r: nat)
    ensures r >= 1
  {
    if k == 0 then 1 else 10 * Pow10(k - 1)
  }

  /** The length of `n.toString()` is the number of decimal digits of `n`. */
  lemma {:induction false} NatToStringWidth(n: nat)
    ensures n < Pow10(|NatToString(n)|)
    ensures n >= 10 ==> Pow10(|NatToString(n)| - 1) <= n
    decreases n
  {
    if n >= 10 {
      NatToStringWidth(n / 10);
      assert |NatToString(n)| == |NatToString(n / 10)| + 1;
    }
  }

  function Max(a: nat, b: nat): nat { if a < b then b else a }

  /** `s.padStart(width, fill)` with a one-character fill string. */
  function PadStart(s: string, width: nat, fill: char): (r: string)
    ensures |r| == Max(|s|, width)
    ensures r[|r| - |s|..] == s
    ensures forall k :: 0 <= k < |r| - |s| ==> r[k] == fill
  {
    if width <= |s| then s else seq(width - |s|, _ => fill) + s
  }

  function LowerChar(c: char): char
  {
    if 'A' <= c <= 'Z' then (c as int + 32) as char else c
  }

  /** `toLowerCase` restricted to ASCII letters. */
  function Lower(s: string): (r: string)
    ensures |r| == |s|
  {
    seq(|s|, k requires 0 <= k < |s| => LowerChar(s[k]))
  }

  function Reverse(s: string): (r: string)
    ensures |r| == |s|
  {
    if s == [] then [] else Reverse(s[1..]) + [s[0]]
  }
}
