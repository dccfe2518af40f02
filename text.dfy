/**
 * The PHP string primitives the plugin relies on, on `string` as a sequence of
 * characters: `empty()`, `trim()`, `ltrim()`, `strpos()`, `str_replace()`,
 * `strtolower()`, `implode()`, `explode()` and the integer-to-string conversion.
 */
module Text {

  /** PHP `empty()` on a string: true for "" and for "0". */
  predicate PhpEmpty(s: string) {
    s == "" || s == "0"
  }

  /** The characters PHP `trim()` strips by default: space, tab, newline, carriage return, NUL, vertical tab. */
  predicate IsTrimSpace(c: char) {
    c == ' ' || c == '\t' || c == '\n' || c == '\r' || c == '\0' || c == '\U{000B}'
  }

  function TrimLeft(s: string): string
    decreases |s|
  {
    if |s| > 0 && IsTrimSpace(s[0]) then TrimLeft(s[1..]) else s
  }

  function TrimRight(s: string): string
    decreases |s|
  {
    if |s| > 0 && IsTrimSpace(s[|s| - 1]) then TrimRight(s[..|s| - 1]) else s
  }

  /** PHP `trim()`. */
  function Trim(s: string): string {
    TrimRight(TrimLeft(s))
  }

  /** `TrimLeft` drops a run of leading spaces and nothing else. */
  lemma {:induction false} TrimLeftShape(s: string)
    ensures var r := TrimLeft(s);
            |r| <= |s| && r == s[|s| - |r|..] && (r == [] || !IsTrimSpace(r[0]))
            && forall i :: 0 <= i < |s| - |r| ==> IsTrimSpace(s[i])
    decreases |s|
  {
    if |s| > 0 && IsTrimSpace(s[0]) {
      TrimLeftShape(s[1..]);
      var r := TrimLeft(s);
      forall i | 0 <= i < |s| - |r| ensures IsTrimSpace(s[i]) {
        if i > 0 { assert s[i] == s[1..][i - 1]; }
      }
    }
  }

  /** `TrimRight` drops a run of trailing spaces and nothing else. */
  lemma {:induction false} TrimRightShape(s: string)
    ensures var r := TrimRight(s);
            |r| <= |s| && r == s[..|r|] && (r == [] || !IsTrimSpace(r[|r| - 1]))
            && forall i :: |r| <= i < |s| ==> IsTrimSpace(s[i])
    decreases |s|
  {
    if |s| > 0 && IsTrimSpace(s[|s| - 1]) {
      TrimRightShape(s[..|s| - 1]);
      var r := TrimRight(s);
      forall i | |r| <= i < |s| ensures IsTrimSpace(s[i]) {
        if i < |s| - 1 { assert s[i] == s[..|s| - 1][i]; }
      }
    }
  }

  /** PHP `ltrim($s, $c)` for a single character `c`. */
  function LTrimChar(s: string, c: char): (r: string)
    ensures |r| <= |s| && r == s[|s| - |r|..]
    ensures r == [] || r[0] != c
    decreases |s|
  {
    if |s| > 0 && s[0] == c then LTrimChar(s[1..], c) else s
  }

  /** `strpos($s, $p) === 0`. */
  predicate StartsWith(s: string, p: string) {
    |p| <= |s| && s[..|p|] == p
  }

  /** `s` ends with `p`. */
  predicate EndsWith(s: string, p: string) {
    |p| <= |s| && s[|s| - |p|..] == p
  }

  lemma ConcatStartsWith(a: string, b: string)
    ensures StartsWith(a + b, a)
  {
    assert (a + b)[..|a|] == a;
  }

  lemma StartsWithExtend(s: string, p: string, t: string)
    requires StartsWith(s, p)
    ensures StartsWith(s + t, p)
  {
    assert (s + t)[..|p|] == s[..|p|];
  }

  lemma ConcatEndsWith(a: string, b: string)
    ensures EndsWith(a + b, b)
  {
    assert (a + b)[|a|..] == b;
  }

  /** `strpos($s, $p) !== false` (an empty needle is found at 0, as in PHP 8). */
  predicate Contains(s: string, p: string)
    decreases |s|
  {
    StartsWith(s, p) || (|s| > 0 && Contains(s[1..], p))
  }

  /**
   * PHP `str_replace($needle, $rep, $s)` for one search string: a left-to-right scan
   * that replaces non-overlapping occurrences; an empty needle leaves `s` unchanged.
   */
  function ReplaceAll(s: string, needle: string, rep: string): string
    decreases |s|
  {
    if needle == [] || |s| < |needle| then s
    else if s[..|needle|] == needle then rep + ReplaceAll(s[|needle|..], needle, rep)
    else [s[0]] + ReplaceAll(s[1..], needle, rep)
  }

  /** ASCII `strtolower` on one character. */
  function LowerChar(c: char): char {
    if 'A' <= c <= 'Z' then (c as int + 32) as char else c
  }

  /** PHP `strtolower()` (byte-wise ASCII, as in PHP 8.2 and later). */
  function ToLower(s: string): (r: string)
    ensures |r| == |s|
    ensures forall i :: 0 <= i < |s| ==> r[i] == LowerChar(s[i])
  {
    seq(|s|, i requires 0 <= i < |s| => LowerChar(s[i]))
  }

  predicate IsUpper(c: char) { 'A' <= c <= 'Z' }
  predicate IsDigit(c: char) { '0' <= c <= '9' }
  predicate IsAlnum(c: char) { IsUpper(c) || ('a' <= c <= 'z') || IsDigit(c) }

  /** `preg_replace('/[^A-Z0-9]/i', '', $s)`: keeps ASCII letters and digits, in order. */
  function KeepAlnum(s: string): (r: string)
    ensures |r| <= |s|
    ensures forall i :: 0 <= i < |r| ==> IsAlnum(r[i])
    decreases |s|
  {
    if s == [] then []
    else (if IsAlnum(s[0]) then [s[0]] else []) + KeepAlnum(s[1..])
  }

  /** `preg_replace('/[^A-Z0-9]/', '', $s)` (case-sensitive): keeps upper-case letters and digits. */
  function KeepUpperAlnum(s: string): (r: string)
    ensures |r| <= |s|
    ensures forall i :: 0 <= i < |r| ==> IsUpper(r[i]) || IsDigit(r[i])
    decreases |s|
  {
    if s == [] then []
    else (if IsUpper(s[0]) || IsDigit(s[0]) then [s[0]] else []) + KeepUpperAlnum(s[1..])
  }

  /** ASCII `strtoupper` on one character. */
  function UpperChar(c: char): char {
    if 'a' <= c <= 'z' then (c as int - 32) as char else c
  }

  /** PHP `strtoupper()`. */
  function ToUpper(s: string): (r: string)
    ensures |r| == |s|
    ensures forall i :: 0 <= i < |s| ==> r[i] == UpperChar(s[i])
  {
    seq(|s|, i requires 0 <= i < |s| => UpperChar(s[i]))
  }

  function DigitChar(d: int): char
    requires 0 <= d < 10
  {
    ('0' as int + d) as char
  }

  function NatToString(n: nat): (r: string)
    ensures |r| > 0
    ensures forall i :: 0 <= i < |r| ==> IsDigit(r[i])
  {
    if n < 10 then [DigitChar(n)] else NatToString(n / 10) + [DigitChar(n % 10)]
  }

  /** PHP's conversion of an integer to a string (decimal, leading '-' when negative). */
  function IntToString(n: int): (r: string)
    ensures |r| > 0
  {
    if n < 0 then "-" + NatToString(-n) else NatToString(n)
  }

  /** PHP `implode($sep, $parts)`. */
  function Join(parts: seq<string>, sep: string): string
    decreases |parts|
  {
    if parts == [] then ""
    else if |parts| == 1 then parts[0]
    else parts[0] + sep + Join(parts[1..], sep)
  }

  /** `explode($c, $s)[0]`: the text before the first `c`, or all of `s` when there is none. */
  function BeforeFirst(s: string, c: char): (r: string)
    ensures |r| <= |s| && r == s[..|r|]
    ensures c !in r
    ensures |r| < |s| ==> s[|r|] == c
    decreases |s|
  {
    if s == [] then []
    else if s[0] == c then []
    else [s[0]] + BeforeFirst(s[1..], c)
  }

  /** No curly brace anywhere in `s`. */
  predicate BraceFree(s: string) {
    forall i :: 0 <= i < |s| ==> s[i] != '{' && s[i] != '}'
  }

  /** Every occurrence of `c` removed (SQL `REPLACE(s, c, '')`, `str_replace($c, '', $s)`). */
  function RemoveChar(s: string, c: char): (r: string)
    ensures |r| <= |s|
    decreases |s|
  {
    if s == [] then []
    else (if s[0] == c then [] else [s[0]]) + RemoveChar(s[1..], c)
  }

  // ---- Lemmas about the primitives ----

  lemma {:induction false} ContainsAt(s: string, p: string, k: nat)
    requires k + |p| <= |s| && s[k..k + |p|] == p
    ensures Contains(s, p)
    decreases k
  {
    if k > 0 {
      assert s[1..][k - 1..k - 1 + |p|] == s[k..k + |p|];
      ContainsAt(s[1..], p, k - 1);
    }
  }

  /** A needle whose first character does not occur in `a` has no occurrence starting inside `a`. */
  lemma {:induction false} ReplaceAllSkipsPrefix(a: string, b: string, needle: string, rep: string)
    requires |needle| > 0 && needle[0] !in a
    ensures ReplaceAll(a + b, needle, rep) == a + ReplaceAll(b, needle, rep)
    decreases |a|
  {
    if a == [] {
      assert a + b == b;
    } else {
      var s := a + b;
      if |needle| <= |s| {
        assert s[..|needle|][0] == a[0];
        assert s[1..] == a[1..] + b;
      } else {
        NoOccurrenceShort(b, needle, rep);
        assert ReplaceAll(s, needle, rep) == s;
        assert |b| < |needle|;
      }
      ReplaceAllSkipsPrefix(a[1..], b, needle, rep);
      assert [a[0]] + (a[1..] + ReplaceAll(b, needle, rep)) == a + ReplaceAll(b, needle, rep);
    }
  }

  /** Where the needle does not start, the scan keeps the first character and moves on. */
  lemma ReplaceAllStep(s: string, needle: string, rep: string)
    requires |s| > 0 && |needle| > 0 && !StartsWith(s, needle)
    ensures ReplaceAll(s, needle, rep) == [s[0]] + ReplaceAll(s[1..], needle, rep)
  {
    if |s| < |needle| {
      NoOccurrenceShort(s[1..], needle, rep);
      assert [s[0]] + s[1..] == s;
    }
  }

  lemma NoOccurrenceShort(s: string, needle: string, rep: string)
    requires |s| < |needle|
    ensures ReplaceAll(s, needle, rep) == s
  {
  }

  /** A string that is already alphanumeric passes the filter unchanged (so the filter is idempotent). */
  lemma {:induction false} KeepAlnumIdentity(s: string)
    requires forall i :: 0 <= i < |s| ==> IsAlnum(s[i])
    ensures KeepAlnum(s) == s
    decreases |s|
  {
    if s != [] {
      KeepAlnumIdentity(s[1..]);
      assert [s[0]] + s[1..] == s;
    }
  }

  lemma {:induction false} KeepUpperAlnumIdentity(s: string)
    requires forall i :: 0 <= i < |s| ==> IsUpper(s[i]) || IsDigit(s[i])
    ensures KeepUpperAlnum(s) == s
    decreases |s|
  {
    if s != [] {
      KeepUpperAlnumIdentity(s[1..]);
      assert [s[0]] + s[1..] == s;
    }
  }

  /** One character outside [A-Z0-9] is enough for the filter to shorten the string. */
  lemma {:induction false} KeepUpperAlnumDrops(s: string, k: nat)
    requires k < |s| && !(IsUpper(s[k]) || IsDigit(s[k]))
    ensures |KeepUpperAlnum(s)| < |s|
    decreases |s|
  {
    if k > 0 {
      KeepUpperAlnumDrops(s[1..], k - 1);
    }
  }

  /** A string that does not contain the needle's first character is left unchanged. */
  lemma ReplaceAllAbsent(s: string, needle: string, rep: string)
    requires |needle| > 0 && needle[0] !in s
    ensures ReplaceAll(s, needle, rep) == s
  {
    ReplaceAllSkipsPrefix(s, [], needle, rep);
    assert s + [] == s;
  }

  /** Replacing a one-character needle by nothing is removing that character. */
  lemma {:induction false} ReplaceCharByNothing(s: string, c: char)
    ensures ReplaceAll(s, [c], "") == RemoveChar(s, c)
    decreases |s|
  {
    if s != [] {
      ReplaceCharByNothing(s[1..], c);
      assert s[..1] == [s[0]];
    }
  }

  /** Removal keeps every other character: `d` survives removing `c != d`, and `c` is gone. */
  lemma {:induction false} RemoveCharMembership(s: string, c: char, d: char)
    ensures d in RemoveChar(s, c) <==> d in s && d != c
    decreases |s|
  {
    if s != [] {
      RemoveCharMembership(s[1..], c, d);
      assert s == [s[0]] + s[1..];
    }
  }

  /** Removing a character that does not occur changes nothing. */
  lemma {:induction false} RemoveCharAbsent(s: string, c: char)
    requires c !in s
    ensures RemoveChar(s, c) == s
    decreases |s|
  {
    if s != [] {
      RemoveCharAbsent(s[1..], c);
      assert [s[0]] + s[1..] == s;
    }
  }

  lemma ConcatAssoc(a: string, b: string, c: string)
    ensures a + (b + c) == a + b + c
  {
  }

  lemma EmptyConcat(a: string)
    ensures "" + a == a && a + "" == a
  {
  }
}
