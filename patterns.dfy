/**
 * The line patterns of the deposit scanner, other than the amount:
 *   DEPOSIT_RE  `(?:BANK OF AMERICA|BOFA MERCH SVCS)\s+DES:DEPOSIT`, IGNORECASE, searched;
 *   PAGE_RE     `Page\s+(\d+)\s+of\s+\d+`, searched, group 1 read as an integer;
 *   the confirmation test: the next line starts with "ID:" and contains "CCD".
 *
 * Each regular expression is given twice: a ghost predicate that says what the
 * expression accepts (some choice of run lengths exists), and the greedy matcher
 * that consumes each `\s+` / `\d+` as far as it goes. The matchers are proved to
 * agree with the ghost predicates at every start position.
 */
module Patterns {
  import opened Wrappers
  import opened Text

  const BankOfAmerica := "BANK OF AMERICA"
  const BofaMerchSvcs := "BOFA MERCH SVCS"
  const DesDeposit := "DES:DEPOSIT"

  // ----- DEPOSIT_RE -----

  /** `\s+DES:DEPOSIT` can match starting at `a`. */
  ghost predicate SpacedDesDepositAt(s: string, a: nat) {
    exists b: nat :: Run(s, a, b, Space) && LiteralAtCI(s, b, DesDeposit)
  }

  /** DEPOSIT_RE matches with its match starting at `i`. */
  ghost predicate DepositAt(s: string, i: nat) {
    (LiteralAtCI(s, i, BankOfAmerica) && SpacedDesDepositAt(s, i + |BankOfAmerica|))
    || (LiteralAtCI(s, i, BofaMerchSvcs) && SpacedDesDepositAt(s, i + |BofaMerchSvcs|))
  }

  /** `DEPOSIT_RE.search(s)` succeeds. */
  ghost predicate DepositMatches(s: string) {
    exists i :: 0 <= i <= |s| && DepositAt(s, i)
  }

  /** Greedy `\s+DES:DEPOSIT` at `a`: after the whole whitespace run the keyword must follow. */
  predicate MatchSpacedDesDepositAt(s: string, a: nat)
    requires a <= |s|
  {
    var b := Span(s, a, Space);
    b > a && LiteralAtCI(s, b, DesDeposit)
  }

  /** Consuming all of the whitespace loses no match of `\s+DES:DEPOSIT`. */
  lemma SpacedDesDepositGreedy(s: string, a: nat)
    requires a <= |s|
    ensures MatchSpacedDesDepositAt(s, a) <==> SpacedDesDepositAt(s, a)
  {
    if SpacedDesDepositAt(s, a) {
      var b: nat :| Run(s, a, b, Space) && LiteralAtCI(s, b, DesDeposit);
      // The keyword starts with 'D' or 'd', which is not whitespace, so it starts where the run stops.
      assert DesDeposit[0] == 'D' && FoldCase(s[b + 0]) == FoldCase(DesDeposit[0]);
      GreedyRunEnds(s, a, b, Space);
    }
    var b := Span(s, a, Space);
    if b > a && LiteralAtCI(s, b, DesDeposit) {
      assert Run(s, a, b, Space);
    }
  }

  /** The greedy matcher for DEPOSIT_RE at start position `i`. */
  predicate MatchDepositAt(s: string, i: nat)
    requires i <= |s|
  {
    (LiteralAtCI(s, i, BankOfAmerica) && MatchSpacedDesDepositAt(s, i + |BankOfAmerica|))
    || (LiteralAtCI(s, i, BofaMerchSvcs) && MatchSpacedDesDepositAt(s, i + |BofaMerchSvcs|))
  }

  /** The greedy matcher accepts at `i` exactly when DEPOSIT_RE can match there. */
  lemma DepositGreedy(s: string, i: nat)
    requires i <= |s|
    ensures MatchDepositAt(s, i) <==> DepositAt(s, i)
  {
    if i + |BankOfAmerica| <= |s| {
      SpacedDesDepositGreedy(s, i + |BankOfAmerica|);
      SpacedDesDepositGreedy(s, i + |BofaMerchSvcs|);
    }
  }

  /** The unanchored search for DEPOSIT_RE, trying start positions from `i` on. */
  function SearchDeposit(s: string, i: nat): (r: bool)
    requires i <= |s|
    ensures r <==> exists j :: i <= j <= |s| && DepositAt(s, j)
    decreases |s| - i
  {
    DepositGreedy(s, i);
    DepositFromHereOrLater(s, i);
    MatchDepositAt(s, i) || (i < |s| && SearchDeposit(s, i + 1))
  }

  /** A match from `i` on starts at `i` or from `i + 1` on. */
  lemma DepositFromHereOrLater(s: string, i: nat)
    requires i <= |s|
    ensures (exists j :: i <= j <= |s| && DepositAt(s, j)) <==>
      DepositAt(s, i) || (i < |s| && exists j :: i + 1 <= j <= |s| && DepositAt(s, j))
  {
  }

  /** `DEPOSIT_RE.search(line)` is truthy. */
  predicate IsDepositLine(line: string)
    ensures IsDepositLine(line) <==> DepositMatches(line)
  {
    SearchDeposit(line, 0)
  }

  /** Any line holding an originator (in any letter case), a non-empty run of
      whitespace and then DES:DEPOSIT (in any letter case) matches DEPOSIT_RE,
      whatever comes before and after. */
  lemma OriginatorThenDesDeposit(pre: string, o: string, ws: string, d: string, rest: string)
    requires |o| == 15 && (LiteralAtCI(o, 0, BankOfAmerica) || LiteralAtCI(o, 0, BofaMerchSvcs))
    requires |ws| > 0 && forall j :: 0 <= j < |ws| ==> IsSpace(ws[j])
    requires |d| == 11 && LiteralAtCI(d, 0, DesDeposit)
    ensures IsDepositLine(pre + o + ws + d + rest)
  {
    var s := pre + o + ws + d + rest;
    var i, a, b := |pre|, |pre| + 15, |pre| + 15 + |ws|;
    forall j | 0 <= j < 15 ensures s[i + j] == o[j] {
    }
    forall j | a <= j < b ensures InClass(s[j], Space) {
      assert s[j] == ws[j - a];
    }
    forall j | 0 <= j < 11 ensures s[b + j] == d[j] {
    }
    assert Run(s, a, b, Space) && LiteralAtCI(s, b, DesDeposit);
    assert DepositAt(s, i);
  }

  /** The search is not anchored: a match stays a match, shifted, whatever text
      is put in front of the line. */
  lemma DepositAtShift(pre: string, s: string, i: nat)
    requires DepositAt(s, i)
    ensures DepositAt(pre + s, |pre| + i)
  {
    var t, k := pre + s, |pre|;
    assert forall j :: 0 <= j < |s| ==> t[k + j] == s[j];
    var o := if LiteralAtCI(s, i, BankOfAmerica) && SpacedDesDepositAt(s, i + 15) then BankOfAmerica else BofaMerchSvcs;
    var b: nat :| Run(s, i + 15, b, Space) && LiteralAtCI(s, b, DesDeposit);
    assert Run(t, k + i + 15, k + b, Space);
    assert LiteralAtCI(t, k + b, DesDeposit);
    assert LiteralAtCI(t, k + i, o);
  }

  lemma DesDepositStartsWithD(s: string, b: nat)
    requires LiteralAtCI(s, b, DesDeposit)
    ensures FoldCase(s[b]) == 'D'
  {
    assert DesDeposit[0] == 'D' && FoldCase(s[b + 0]) == FoldCase(DesDeposit[0]);
  }

  /** Text other than whitespace between an originator and DES:DEPOSIT stops a
      match from starting at that originator: after the originator, the first
      character that is not whitespace must begin DES:DEPOSIT. */
  lemma InterveningTextBlocksMatch(s: string, i: nat, k: nat)
    requires i + 15 <= k < |s|
    requires forall j :: i + 15 <= j < k ==> IsSpace(s[j])
    requires !IsSpace(s[k]) && FoldCase(s[k]) != 'D'
    ensures !DepositAt(s, i)
  {
    if DepositAt(s, i) {
      var b: nat :| Run(s, i + 15, b, Space) && LiteralAtCI(s, b, DesDeposit);
      DesDepositStartsWithD(s, b);
    }
  }

  // ----- the confirmation line -----

  const IdPrefix := "ID:"
  const Ccd := "CCD"

  /** The line after a deposit line confirms it: it starts with "ID:" and contains
      "CCD" somewhere, both compared case-sensitively. */
  predicate IsConfirmation(next: string)
    ensures IsConfirmation(next) <==>
      |next| >= 3 && next[..3] == "ID:" && exists j :: 0 <= j <= |next| - 3 && LiteralAt(next, j, "CCD")
  {
    LiteralAt(next, 0, IdPrefix) && ContainsFrom(next, Ccd, 0)
  }

  /** A line that starts with "ID:" and holds "CCD" further on is a confirmation line. */
  lemma ConfirmationAccepted(x: string, y: string)
    ensures IsConfirmation(IdPrefix + x + Ccd + y)
  {
    var next := IdPrefix + x + Ccd + y;
    assert next[..3] == IdPrefix;
    assert next[3 + |x|..3 + |x| + 3] == Ccd;
    assert LiteralAt(next, 3 + |x|, Ccd);
  }

  // ----- PAGE_RE -----

  /** `\s+\d` can match starting at `d`: the tail `\s+\d+` needs just one digit. */
  ghost predicate SpacedDigitAt(s: string, d: nat) {
    exists e: nat :: Run(s, d, e, Space) && e < |s| && IsDigit(s[e])
  }

  /** `\s+of\s+\d+` can match starting at `c`. */
  ghost predicate OfTailAt(s: string, c: nat) {
    exists d: nat :: Run(s, c, d, Space) && LiteralAt(s, d, "of") && SpacedDigitAt(s, d + 2)
  }

  /** `(\d+)\s+of\s+\d+` can match starting at `b` with group 1 worth `n`. */
  ghost predicate NumberedTailAt(s: string, b: nat, n: nat) {
    exists c: nat :: Run(s, b, c, Digit) && n == DigitsValue(s[b..c]) && OfTailAt(s, c)
  }

  /** PAGE_RE matches starting at `i` with group 1 worth `n`. */
  ghost predicate PageAt(s: string, i: nat, n: nat) {
    LiteralAt(s, i, "Page") && exists b: nat :: Run(s, i + 4, b, Space) && NumberedTailAt(s, b, n)
  }

  /** Greedy `\s+\d` at `d`. */
  predicate MatchSpacedDigitAt(s: string, d: nat)
    requires d <= |s|
  {
    var e := Span(s, d, Space);
    e > d && e < |s| && IsDigit(s[e])
  }

  lemma SpacedDigitGreedy(s: string, d: nat)
    requires d <= |s|
    ensures MatchSpacedDigitAt(s, d) <==> SpacedDigitAt(s, d)
  {
    if SpacedDigitAt(s, d) {
      var e: nat :| Run(s, d, e, Space) && e < |s| && IsDigit(s[e]);
      GreedyRunEnds(s, d, e, Space);
    }
    var e := Span(s, d, Space);
    if e > d && e < |s| && IsDigit(s[e]) {
      assert Run(s, d, e, Space);
    }
  }

  /** Greedy `\s+of\s+\d` at `c`. */
  predicate MatchOfTailAt(s: string, c: nat)
    requires c <= |s|
  {
    var d := Span(s, c, Space);
    d > c && LiteralAt(s, d, "of") && MatchSpacedDigitAt(s, d + 2)
  }

  lemma OfTailGreedy(s: string, c: nat)
    requires c <= |s|
    ensures MatchOfTailAt(s, c) <==> OfTailAt(s, c)
  {
    if OfTailAt(s, c) {
      var d: nat :| Run(s, c, d, Space) && LiteralAt(s, d, "of") && SpacedDigitAt(s, d + 2);
      assert s[d] == s[d..d + 2][0] == 'o';
      GreedyRunEnds(s, c, d, Space);
      SpacedDigitGreedy(s, d + 2);
    }
    var d := Span(s, c, Space);
    if d > c && LiteralAt(s, d, "of") {
      assert Run(s, c, d, Space);
      SpacedDigitGreedy(s, d + 2);
    }
  }

  /** Greedy `(\d+)\s+of\s+\d` at `b`: the value of group 1 if it matches. */
  function MatchNumberedTailAt(s: string, b: nat): Option<nat>
    requires b <= |s|
  {
    var c := Span(s, b, Digit);
    if c > b && MatchOfTailAt(s, c) then Some(DigitsValue(s[b..c])) else None
  }

  lemma NumberedTailGreedy(s: string, b: nat, n: nat)
    requires b <= |s|
    ensures MatchNumberedTailAt(s, b) == Some(n) <==> NumberedTailAt(s, b, n)
  {
    var c := Span(s, b, Digit);
    OfTailGreedy(s, c);
    if NumberedTailAt(s, b, n) {
      var c': nat :| Run(s, b, c', Digit) && n == DigitsValue(s[b..c']) && OfTailAt(s, c');
      assert IsSpace(s[c']);
      GreedyRunEnds(s, b, c', Digit);
    }
    if c > b && MatchOfTailAt(s, c) {
      assert Run(s, b, c, Digit);
    }
  }

  /** The greedy matcher for PAGE_RE at start position `i`: the value of group 1 if it matches. */
  function MatchPageAt(s: string, i: nat): Option<nat>
    requires i <= |s|
  {
    if !LiteralAt(s, i, "Page") then
      None
    else
      var b := Span(s, i + 4, Space);
      if b == i + 4 then None else MatchNumberedTailAt(s, b)
  }

  /** The greedy matcher yields `n` at `i` exactly when PAGE_RE matches there with group 1 worth `n`. */
  lemma PageGreedy(s: string, i: nat, n: nat)
    requires i <= |s|
    ensures MatchPageAt(s, i) == Some(n) <==> PageAt(s, i, n)
  {
    if LiteralAt(s, i, "Page") {
      var b := Span(s, i + 4, Space);
      if PageAt(s, i, n) {
        var b': nat :| Run(s, i + 4, b', Space) && NumberedTailAt(s, b', n);
        var c': nat :| Run(s, b', c', Digit) && n == DigitsValue(s[b'..c']) && OfTailAt(s, c');
        assert IsDigit(s[b']);
        GreedyRunEnds(s, i + 4, b', Space);
        NumberedTailGreedy(s, b', n);
      }
      if b > i + 4 {
        assert Run(s, i + 4, b, Space);
        NumberedTailGreedy(s, b, n);
      }
    }
  }

  /** No PAGE_RE match starts at any position from `i` up to, not including, `j`. */
  ghost predicate NoPageBetween(s: string, i: nat, j: nat) {
    forall k, n :: i <= k < j ==> !PageAt(s, k, n)
  }

  /** `PAGE_RE.search(s)`, leftmost match from position `i` on: the value of its group 1. */
  function SearchPage(s: string, i: nat): (r: Option<nat>)
    requires i <= |s|
    ensures r.Some? ==> exists j :: i <= j <= |s| && PageAt(s, j, r.value) && NoPageBetween(s, i, j)
    ensures r.None? ==> NoPageBetween(s, i, |s| + 1)
    decreases |s| - i
  {
    var here := MatchPageAt(s, i);
    if here.Some? then
      PageGreedy(s, i, here.value);
      assert NoPageBetween(s, i, i);
      here
    else
      NoPageAt(s, i);
      if i == |s| then None
      else
        var r := SearchPage(s, i + 1);
        NoPageFromNext(s, i, r);
        r
  }

  /** Where the greedy matcher fails, PAGE_RE matches with no group value. */
  lemma NoPageAt(s: string, i: nat)
    requires i <= |s| && MatchPageAt(s, i).None?
    ensures NoPageBetween(s, i, i + 1)
  {
    forall n: nat ensures !PageAt(s, i, n) {
      PageGreedy(s, i, n);
    }
  }

  /** No match at `i` extends the result of the search from `i + 1` back to `i`. */
  lemma NoPageFromNext(s: string, i: nat, r: Option<nat>)
    requires i < |s| && NoPageBetween(s, i, i + 1)
    requires r.Some? ==> exists j :: i + 1 <= j <= |s| && PageAt(s, j, r.value) && NoPageBetween(s, i + 1, j)
    requires r.None? ==> NoPageBetween(s, i + 1, |s| + 1)
    ensures r.Some? ==> exists j :: i <= j <= |s| && PageAt(s, j, r.value) && NoPageBetween(s, i, j)
    ensures r.None? ==> NoPageBetween(s, i, |s| + 1)
  {
    if r.Some? {
      var j :| i + 1 <= j <= |s| && PageAt(s, j, r.value) && NoPageBetween(s, i + 1, j);
      assert NoPageBetween(s, i, j);
    }
  }

  /** The page number a line announces, if it carries a "Page N of M" marker. */
  function PageNumber(line: string): Option<nat> {
    SearchPage(line, 0)
  }

  /** A PAGE_RE match with no match before it, from `i` on, is the one the search
      returns: its group 1 is the result. */
  lemma SearchPageFinds(s: string, i: nat, j: nat, n: nat)
    requires i <= j <= |s| && PageAt(s, j, n) && NoPageBetween(s, i, j)
    ensures SearchPage(s, i) == Some(n)
  {
    var r := SearchPage(s, i);
    var j' :| i <= j' <= |s| && PageAt(s, j', r.value) && NoPageBetween(s, i, j');
    assert j' == j;
    PageGreedy(s, j, n);
    PageGreedy(s, j, r.value);
  }
}
