/**
 * Statement fragments worked through the model: each lemma fixes concrete lines
 * (passed in, so that the verifier reasons about them instead of unfolding every
 * function on them) and states what the scanner makes of them. Each fact about
 * one line is its own small lemma; the examples put them together.
 */
module ScannerExamples {
  import opened Wrappers
  import opened Text
  import opened Patterns
  import opened Amounts
  import opened Scanner

  // ----- single lines -----

  /** The merchant-services originator, one space, DES:DEPOSIT: a match at the start. */
  lemma MerchantLineMatches(line: string)
    requires line == "BOFA MERCH SVCS DES:DEPOSIT -45.00"
    ensures DepositMatches(line)
  {
    assert LiteralAtCI(line, 0, BofaMerchSvcs);
    assert Run(line, 15, 16, Space);
    assert LiteralAtCI(line, 16, DesDeposit);
    assert DepositAt(line, 0);
  }

  /** Both keywords match in lower case. */
  lemma LowerCaseLineMatches(line: string)
    requires line == "bank of america des:deposit 10.00"
    ensures DepositMatches(line)
  {
    LowerCaseWords(line[..15], line[16..27]);
    assert Run(line, 15, 16, Space);
    assert DepositAt(line, 0);
  }

  lemma LowerCaseWords(o: string, d: string)
    requires o == "bank of america" && d == "des:deposit"
    ensures LiteralAtCI(o, 0, BankOfAmerica) && LiteralAtCI(d, 0, DesDeposit)
  {
  }

  lemma BankLineMatches(line: string)
    requires line == "BANK OF AMERICA DES:DEPOSIT 100.00"
    ensures DepositMatches(line)
  {
    assert LiteralAtCI(line, 0, BankOfAmerica);
    assert Run(line, 15, 16, Space);
    assert LiteralAtCI(line, 16, DesDeposit);
    assert DepositAt(line, 0);
  }

  /** A line shorter than either originator cannot match DEPOSIT_RE. */
  lemma ShortLineNoDeposit(line: string)
    requires |line| < 15
    ensures !DepositMatches(line)
  {
  }

  /** A next line that does not start with "ID:" is no confirmation, whatever else it holds. */
  lemma MemoIsNoConfirmation(m: string)
    requires m == "MEMO CCD"
    ensures !IsConfirmation(m)
  {
    assert !LiteralAt(m, 0, IdPrefix) by {
      assert m[..3][0] == 'M';
    }
  }

  /** "BOFA MERCH SVCS DES:DEPOSIT -45.00" is read as -45.00. */
  lemma WithdrawalIsRead(line: string)
    requires line == "BOFA MERCH SVCS DES:DEPOSIT -45.00"
    ensures AmountToken(line) == Some(-4500)
  {
    assert AmountText(-4500) == "-45.00";
    assert line == "BOFA MERCH SVCS DES:DEPOSIT" + " " + AmountText(-4500);
    PrintedAmountIsRead("BOFA MERCH SVCS DES:DEPOSIT", -4500);
  }

  /** "bank of america des:deposit 10.00" is read as 10.00. */
  lemma TenIsRead(line: string)
    requires line == "bank of america des:deposit 10.00"
    ensures AmountToken(line) == Some(1000)
  {
    assert AmountText(1000) == "10.00";
    assert line == "bank of america des:deposit" + " " + AmountText(1000);
    PrintedAmountIsRead("bank of america des:deposit", 1000);
  }

  /** "BANK OF AMERICA DES:DEPOSIT 100.00" is read as 100.00. */
  lemma HundredIsRead(line: string)
    requires line == "BANK OF AMERICA DES:DEPOSIT 100.00"
    ensures AmountToken(line) == Some(10000)
  {
    assert AmountText(10000) == "100.00";
    assert line == "BANK OF AMERICA DES:DEPOSIT" + " " + AmountText(10000);
    PrintedAmountIsRead("BANK OF AMERICA DES:DEPOSIT", 10000);
  }

  // ----- scans -----

  /** A withdrawal by the merchant-services originator lands in the negative total. */
  lemma WithdrawalExample(line: string, next: string)
    requires line == "BOFA MERCH SVCS DES:DEPOSIT -45.00" && next == "ID:999 CCD"
    ensures ScanTotals([line, next]) == Totals(0, -4500)
  {
    assert IsConfirmation(next) by {
      assert next[..3] == IdPrefix && next[7..10] == Ccd;
      assert next == next[..3] + next[3..7] + next[7..10] + next[10..];
      ConfirmationAccepted(next[3..7], next[10..]);
    }
    MerchantLineMatches(line);
    WithdrawalIsRead(line);
    ConfirmedPair(line, -4500, next);
  }

  /** The originator and DES:DEPOSIT match in lower case too. */
  lemma LowerCaseExample(line: string, next: string)
    requires line == "bank of america des:deposit 10.00" && next == "ID:000123 CCD ENTRY"
    ensures ScanTotals([line, next]) == Totals(1000, 0)
  {
    assert IsConfirmation(next) by {
      assert next[..3] == IdPrefix && next[10..13] == Ccd;
      assert next == next[..3] + next[3..10] + next[10..13] + next[13..];
      ConfirmationAccepted(next[3..10], next[13..]);
    }
    LowerCaseLineMatches(line);
    TenIsRead(line);
    ConfirmedPair(line, 1000, next);
  }

  /** A deposit line followed by its confirmation, for 100.00. */
  lemma HundredPair(d: string, n: string)
    requires d == "BANK OF AMERICA DES:DEPOSIT 100.00" && n == "ID:1 CCD"
    ensures ScanTotals([d, n]) == Totals(10000, 0)
  {
    assert IsConfirmation(n) by {
      assert n[..3] == IdPrefix && n[5..8] == Ccd;
      assert n == n[..3] + n[3..5] + n[5..8] + n[8..];
      ConfirmationAccepted(n[3..5], n[8..]);
    }
    BankLineMatches(d);
    HundredIsRead(d);
    ConfirmedPair(d, 10000, n);
  }

  /** Two confirmed deposits add up in the positive total; the confirmation line
      in the middle, followed by the second deposit line, adds nothing. */
  lemma TwoDepositsExample(d: string, n: string)
    requires d == "BANK OF AMERICA DES:DEPOSIT 100.00" && n == "ID:1 CCD"
    ensures ScanTotals([d, n, d, n]) == Totals(20000, 0)
  {
    HundredPair(d, n);
    ShortLineNoDeposit(n);
    assert Contribution(n, d) == None;
    ScanConcat([d, n], [d, n]);
    assert [d, n] + [d, n] == [d, n, d, n];
  }

  /** A deposit line with no following line is not counted, nor is one whose next
      line does not start with "ID:". */
  lemma UnconfirmedExamples(d: string, m: string)
    requires d == "BANK OF AMERICA DES:DEPOSIT 100.00" && m == "MEMO CCD"
    ensures ScanTotals([d]) == Zero
    ensures ScanTotals([d, m]) == Zero
  {
    MemoIsNoConfirmation(m);
    assert Contribution(d, m) == None;
    ScanTwoLines(d, m);
  }

  /** Only the first character of this line folds to 'B', so an originator can
      only start there. */
  lemma OnlyFirstCharFoldsToB(line: string)
    requires line == "BANK OF AMERICA XYZ DES:DEPOSIT 1,234.56"
    ensures forall j :: 1 <= j < |line| ==> FoldCase(line[j]) != 'B'
  {
  }

  /** Where no character from `k` on folds to 'B', no match of DEPOSIT_RE starts
      from `k` on: both originators begin with that letter. */
  lemma NoOriginatorAfter(s: string, k: nat)
    requires forall j :: k <= j < |s| ==> FoldCase(s[j]) != 'B'
    ensures forall i :: k <= i <= |s| ==> !DepositAt(s, i)
  {
    forall i | k <= i <= |s| ensures !DepositAt(s, i) {
      if i + 15 <= |s| {
        assert FoldCase(s[i + 0]) != FoldCase(BankOfAmerica[0]);
        assert FoldCase(s[i + 0]) != FoldCase(BofaMerchSvcs[0]);
      }
    }
  }

  /** A word between the originator and DES:DEPOSIT means the line is no deposit line. */
  lemma InterveningWordNoMatch(line: string)
    requires line == "BANK OF AMERICA XYZ DES:DEPOSIT 1,234.56"
    ensures !DepositMatches(line)
  {
    InterveningTextBlocksMatch(line, 0, 16);
    OnlyFirstCharFoldsToB(line);
    NoOriginatorAfter(line, 1);
  }

  /** ... so it adds nothing, whatever line follows it. */
  lemma InterveningWordExample(line: string, next: string)
    requires line == "BANK OF AMERICA XYZ DES:DEPOSIT 1,234.56" && next == "ID: 000123 CCD ENTRY"
    ensures ScanTotals([line, next]) == Zero
  {
    InterveningWordNoMatch(line);
    assert Contribution(line, next) == None;
    ScanTwoLines(line, next);
  }

  /** The amount search is not anchored at the start: without thousands separators,
      only the last three digits before the point are read. */
  lemma UnanchoredAmountExample(s: string)
    requires s == "12345.67"
    ensures AmountToken(s) == Some(34567)
  {
    NoAmountAtFirstTwo(s);
    AmountAtThird(s);
    assert FindAmount(s, 0) == Some(2);
    ThirdAmountValue(s[2..AmountEnd(s)]);
  }

  lemma NoAmountAtFirstTwo(s: string)
    requires s == "12345.67"
    ensures AmountEnd(s) == 8 && !AmountMatchAt(s, 0) && !AmountMatchAt(s, 1)
  {
    assert s[0..8][..5] == "12345" && !GroupedDigits("12345");
    assert s[1..8][..4] == "2345" && !GroupedDigits("2345");
  }

  lemma AmountAtThird(s: string)
    requires s == "12345.67"
    ensures AmountMatchAt(s, 2) && s[2..AmountEnd(s)] == "345.67"
  {
    assert AmountEnd(s) == 8;
    var t := s[2..8];
    assert t == "345.67" && t[..3] == "345" && t[4..] == "67";
    assert GroupedDigits("345");
  }

  lemma ThirdAmountValue(t: string)
    requires t == "345.67"
    ensures Cents(t) == 34567
  {
    assert Unsigned(t) == t;
    DigitsOf345And67(t[..3], t[4..]);
  }

  lemma DigitsOf345And67(w: string, f: string)
    requires w == "345" && f == "67"
    ensures RemoveCommas(w) == w && DigitsValue(w) == 345 && DigitsValue(f) == 67
  {
    assert ThreeDigits(345) == w;
    ThreeDigitsValue(345);
    RemoveCommasOfDigits(w);
    assert f[..1][..0] == [] && DigitsValue(f[..1]) == 6;
  }

  /** "Page 1 of 2" at the start of a line: PAGE_RE matches there with page 1. */
  lemma PageOneOfTwo(s: string, rest: string)
    requires s == "Page 1 of 2 " + rest
    ensures PageAt(s, 0, 1)
  {
    assert Decimal(1) == "1";
    assert s[5] == '1' && s[5..6] == [s[5]];
    assert s[..4] == "Page";
    assert s[7] == 'o' && s[8] == 'f' && s[7..9] == "of";
    assert Run(s, 4, 5, Space) && Run(s, 5, 6, Digit) && Run(s, 6, 7, Space);
    assert LiteralAt(s, 7, "of") && Run(s, 9, 10, Space) && IsDigit(s[10]);
    assert SpacedDigitAt(s, 9) && OfTailAt(s, 6) && NumberedTailAt(s, 5, 1);
  }

  /** A PAGE_RE match at the very start is the leftmost one, so it names the page. */
  lemma PageAtStart(s: string, n: nat)
    requires PageAt(s, 0, n)
    ensures PageNumber(s) == Some(n)
  {
    PageGreedy(s, 0, n);
  }

  /** A page marker before the originator does not stop the match. */
  lemma DepositAfterPageMarker(s: string, rest: string)
    requires s == "Page 1 of 2 " + rest && rest == "BANK OF AMERICA DES:DEPOSIT 10.00"
    ensures DepositMatches(s)
  {
    assert LiteralAtCI(rest, 0, BankOfAmerica);
    assert Run(rest, 15, 16, Space);
    assert LiteralAtCI(rest, 16, DesDeposit);
    DepositAtShift("Page 1 of 2 ", rest, 0);
  }

  /** A line that opens with "Page 1 of 2" announces page 1, whatever follows it;
      with a deposit after the marker the line also matches DEPOSIT_RE
      (DepositAfterPageMarker): the two tests are independent. */
  lemma PageMarkerExample(s: string, rest: string)
    requires s == "Page 1 of 2 " + rest
    ensures PageNumber(s) == Some(1)
  {
    PageOneOfTwo(s, rest);
    PageAtStart(s, 1);
  }
}
