/** The string operations the matchers use, over ASCII. */
module Strings {

  function LowerChar(c: char): char {
    if 'A' <= c <= 'Z' then (c as int + 32) as char else c
  }

  /** strings.ToLower. */
  function Lower(s: string): (r: string)
    ensures |r| == |s| && forall i :: 0 <= i < |s| ==> r[i] == LowerChar(s[i])
  {
    seq(|s|, i requires 0 <= i < |s| => LowerChar(s[i]))
  }

  predicate HasPrefix(s: string, prefix: string) { prefix <= s }

  predicate HasSuffix(s: string, suffix: string) {
    |suffix| <= |s| && s[|s| - |suffix|..] == suffix
  }

  function TrimPrefix(s: string, prefix: string): string {
    if HasPrefix(s, prefix) then s[|prefix|..] else s
  }

  function TrimSuffix(s: string, suffix: string): string {
    if HasSuffix(s, suffix) then s[..|s| - |suffix|] else s
  }

  /** One occurrence at the end is taken off, if there is one. */
  lemma TrimIs(s: string, part: string)
    ensures TrimPrefix(part + s, part) == s && TrimSuffix(s + part, part) == s
    ensures TrimPrefix(s, part) == s || part + TrimPrefix(s, part) == s
    ensures TrimSuffix(s, part) == s || TrimSuffix(s, part) + part == s
  {
    assert (part + s)[|part|..] == s;
    assert (s + part)[..|s|] == s && (s + part)[|s|..] == part;
  }

  /** part stands in s at position i. */
  predicate OccursAt(s: string, part: string, i: nat) {
    i + |part| <= |s| && s[i..i + |part|] == part
  }

  /** strings.Contains. */
  predicate Contains(s: string, part: string) {
    exists i :: 0 <= i <= |s| && OccursAt(s, part, i)
  }

  /** strings.ReplaceAll for one character. */
  function ReplaceAll(s: string, old': char, new': char): string {
    seq(|s|, i requires 0 <= i < |s| => if s[i] == old' then new' else s[i])
  }

  /** strings.Replace(s, old, new, 1) for one character. */
  function ReplaceFirst(s: string, old': char, new': char): string {
    if s == [] then [] else if s[0] == old' then [new'] + s[1..] else [s[0]] + ReplaceFirst(s[1..], old', new')
  }

  // ----- numbers in base ten -----

  function Digit(n: nat): char
    requires n < 10
  {
    "0123456789"[n]
  }

  function Digits(n: nat): string {
    if n < 10 then [Digit(n)] else Digits(n / 10) + [Digit(n % 10)]
  }

  lemma {:induction false} DigitsDiffer(m: nat, n: nat)
    requires Digits(m) == Digits(n)
    ensures m == n
  {
    DigitsEnd(m);
    DigitsEnd(n);
    if m >= 10 && n >= 10 {
      assert Digits(m)[..|Digits(m)| - 1] == Digits(m / 10) && Digits(n)[..|Digits(n)| - 1] == Digits(n / 10);
      DigitsDiffer(m / 10, n / 10);
    }
  }

  lemma {:induction false} DigitsEnd(n: nat)
    ensures |Digits(n)| >= 1 && Digits(n)[|Digits(n)| - 1] == Digit(n % 10)
    ensures n >= 10 <==> |Digits(n)| >= 2
  {
    if n >= 10 { DigitsEnd(n / 10); }
  }

  lemma {:induction false} DigitsHead(n: nat)
    ensures |Digits(n)| >= 1 && '0' <= Digits(n)[0] <= '9'
  {
    if n >= 10 { DigitsHead(n / 10); }
  }

  // ----- spellings in letters of either case -----

  /** c is l, or l's capital. */
  predicate AnyCase(c: char, l: char) {
    c == l || ('a' <= l <= 'z' && c as int == l as int - ('a' as int - 'A' as int))
  }

  /** The name is spelled like this, in letters of either case. */
  predicate Called(name: string, lower: string) {
    |name| == |lower| && forall i :: 0 <= i < |name| ==> AnyCase(name[i], lower[i])
  }

  predicate NoCapitals(s: string) { forall i :: 0 <= i < |s| ==> !('A' <= s[i] <= 'Z') }

  lemma LowerIff(name: string, lower: string)
    requires NoCapitals(lower)
    ensures Lower(name) == lower <==> Called(name, lower)
  {
    if Called(name, lower) {
      forall i | 0 <= i < |name| ensures Lower(name)[i] == lower[i] { assert AnyCase(name[i], lower[i]); }
    }
    if Lower(name) == lower {
      forall i | 0 <= i < |name| ensures AnyCase(name[i], lower[i]) { assert Lower(name)[i] == lower[i]; }
    }
  }

  /** The same but for the case of letters. */
  predicate SameLetters(a: string, b: string) {
    |a| == |b| && forall i :: 0 <= i < |a| ==> SameLetter(a[i], b[i])
  }

  predicate SameLetter(a: char, b: char) {
    || a == b
    || ('a' <= a <= 'z' && 'A' <= b <= 'Z' && a as int - 'a' as int == b as int - 'A' as int)
    || ('A' <= a <= 'Z' && 'a' <= b <= 'z' && a as int - 'A' as int == b as int - 'a' as int)
  }

  lemma SameLettersLower(a: string, b: string)
    requires SameLetters(a, b)
    ensures Lower(a) == Lower(b)
  {
    forall i | 0 <= i < |a| ensures Lower(a)[i] == Lower(b)[i] { assert SameLetter(a[i], b[i]); }
  }
}
