/** Option, as used for the statement patterns' "match or no match" answers. */
module Wrappers {
  datatype Option<+T> = None | Some(value: T)
}

/**
 * Characters and literals as the statement patterns see them.
 *
 * Only ASCII is modelled: `\s` is Python's ASCII whitespace (tab, newline,
 * vertical tab, form feed, carriage return, the separators 0x1C-0x1F and
 * space), `\d` is '0'..'9', and IGNORECASE folds the ASCII letters only.
 */
module Text {

  predicate IsSpace(c: char) {
    9 <= c as int <= 13 || 28 <= c as int <= 32
  }

  predicate IsDigit(c: char) {
    '0' <= c <= '9'
  }

  predicate AllDigits(s: string) {
    forall i :: 0 <= i < |s| ==> IsDigit(s[i])
  }

  /** The two repeated character classes of the patterns, `\s+` and `\d+`. */
  datatype CharClass = Space | Digit

  predicate InClass(c: char, k: CharClass) {
    match k
    case Space => IsSpace(c)
    case Digit => IsDigit(c)
  }

  /** `s[a..b]` is a non-empty run of class `k`: what `\s+` or `\d+` may consume. */
  ghost predicate Run(s: string, a: nat, b: nat, k: CharClass) {
    a < b <= |s| && forall j :: a <= j < b ==> InClass(s[j], k)
  }

  /** Greedy consumption: the end of the longest run of class `k` starting at `a`. */
  function Span(s: string, a: nat, k: CharClass): (b: nat)
    requires a <= |s|
    ensures a <= b <= |s|
    ensures forall j :: a <= j < b ==> InClass(s[j], k)
    ensures b == |s| || !InClass(s[b], k)
    decreases |s| - a
  {
    if a == |s| || !InClass(s[a], k) then a else Span(s, a + 1, k)
  }

  /** A run that is followed by a character outside its class is exactly the greedy one. */
  lemma GreedyRunEnds(s: string, a: nat, b: nat, k: CharClass)
    requires Run(s, a, b, k)
    requires b < |s| && !InClass(s[b], k)
    ensures Span(s, a, k) == b
  {
  }

  /** ASCII case folding, as IGNORECASE applies it to ASCII letters. */
  function FoldCase(c: char): (d: char)
    ensures !('a' <= d <= 'z')
    ensures c == d || (c as int - d as int == 32 && 'A' <= d <= 'Z')
  {
    if 'a' <= c <= 'z' then (c as int - 32) as char else c
  }

  /** `lit` occurs at position `i` of `s`, character for character. */
  predicate LiteralAt(s: string, i: nat, lit: string) {
    i + |lit| <= |s| && s[i..i + |lit|] == lit
  }

  /** `lit` occurs at position `i` of `s`, ignoring the case of ASCII letters. */
  predicate LiteralAtCI(s: string, i: nat, lit: string) {
    i + |lit| <= |s| && forall j :: 0 <= j < |lit| ==> FoldCase(s[i + j]) == FoldCase(lit[j])
  }

  /** The decimal value of a string of digits. */
  function DigitsValue(d: string): nat
    requires AllDigits(d)
  {
    if d == [] then 0 else DigitsValue(d[..|d| - 1]) * 10 + (d[|d| - 1] as int - '0' as int)
  }

  /** Unanchored substring test (Python's `lit in s`), searching from position `i`. */
  function ContainsFrom(s: string, lit: string, i: nat): (r: bool)
    requires i <= |s|
    ensures r <==> exists j :: i <= j <= |s| && LiteralAt(s, j, lit)
    decreases |s| - i
  {
    LiteralAt(s, i, lit) || (i < |s| && ContainsFrom(s, lit, i + 1))
  }
}
