/**
 * The deposit scanner of `process_pdf_stream`: a single pass over the lines of
 * the extracted text, looking one line ahead. A line counts when it matches
 * DEPOSIT_RE, ends in an amount (AMT_RE) and the next line starts with "ID:"
 * and contains "CCD"; its amount goes to the deposit total when it is at least
 * zero and to the withdrawal total otherwise. The last line is never a
 * candidate. Amounts are exact integers in cents.
 */
module Scanner {
  import opened Wrappers
  import opened Text
  import opened Patterns
  import opened Amounts
  import opened Lines

  /** The two running totals, in cents: `pos` for amounts >= 0, `neg` for amounts < 0. */
  datatype Totals = Totals(pos: int, neg: int)

  const Zero := Totals(0, 0)

  /** What the line `line`, followed by `next`, adds to the totals: its amount if
      it is a confirmed deposit line, nothing otherwise. */
  function Contribution(line: string, next: string): Option<int> {
    if IsDepositLine(line) then
      var amount := AmountToken(line);
      if amount.Some? && IsConfirmation(next) then amount else None
    else
      None
  }

  /** A line contributes exactly when all three tests hold, each stated as what its
      pattern accepts, and then it contributes the value of the leftmost amount match. */
  lemma ContributionQualifies(line: string, next: string)
    ensures Contribution(line, next).Some? <==>
      DepositMatches(line)
      && (exists p :: 0 <= p <= AmountEnd(line) && AmountMatchAt(line, p))
      && LiteralAt(next, 0, "ID:") && (exists j :: 0 <= j <= |next| && LiteralAt(next, j, "CCD"))
    ensures Contribution(line, next).Some? ==>
      exists p: nat :: LeftmostAmountAt(line, p) && Contribution(line, next).value == Cents(line[p..AmountEnd(line)])
  {
  }

  /** One step of the fold: a contribution >= 0 goes to `pos`, one < 0 to `neg`. */
  function Add(t: Totals, c: Option<int>): Totals {
    match c
    case None => t
    case Some(a) => if a >= 0 then Totals(t.pos + a, t.neg) else Totals(t.pos, t.neg + a)
  }

  /** What the rule `f` makes of each line but the last, looking ahead to its
      successor, in line order. */
  function Pairwise<T>(f: (string, string) -> T, lines: seq<string>): (r: seq<T>)
    ensures |r| == if lines == [] then 0 else |lines| - 1
    decreases |lines|
  {
    if |lines| < 2 then []
    else
      var n := |lines|;
      Pairwise(f, lines[..n - 1]) + [f(lines[n - 2], lines[n - 1])]
  }

  /** The contribution of every candidate, in line order. */
  function Contributions(lines: seq<string>): seq<Option<int>> {
    Pairwise(Contribution, lines)
  }

  /** The two totals of a sequence of contributions, added up from the left. */
  function Sum(cs: seq<Option<int>>): (r: Totals)
    ensures r.pos >= 0 && r.neg <= 0
  {
    if cs == [] then Zero else Add(Sum(cs[..|cs| - 1]), cs[|cs| - 1])
  }

  /** What the scan returns for `lines`: every line but the last is a candidate. */
  function ScanTotals(lines: seq<string>): (r: Totals)
    ensures r.pos >= 0 && r.neg <= 0
    ensures |lines| < 2 ==> r == Zero
  {
    Sum(Contributions(lines))
  }

  /** The scan loop: for each line but the last, note a page marker, then test the
      line and its successor and add a confirmed amount to one of the totals. */
  method Scan(lines: seq<string>) returns (pos: int, neg: int)
    ensures Totals(pos, neg) == ScanTotals(lines)
  {
    pos, neg := 0, 0;
    if lines == [] {
      return;
    }
    ghost var cs := Contributions(lines);
    var currentPage: Option<nat> := None;
    var i := 0;
    while i < |lines| - 1
      invariant 0 <= i <= |lines| - 1
      invariant Totals(pos, neg) == Sum(cs[..i])
    {
      var line := lines[i];
      SumStep(cs, i);
      PairwiseAt(Contribution, lines, i);
      var page := PageNumber(line);
      if page.Some? {
        currentPage := page;
      }
      if IsDepositLine(line) {
        var amount := AmountToken(line);
        var next := lines[i + 1];
        if amount.Some? && IsConfirmation(next) {
          assert Contribution(line, next) == amount;
          if amount.value >= 0 {
            pos := pos + amount.value;
          } else {
            neg := neg + amount.value;
          }
        } else {
          assert Contribution(line, next) == None;
        }
      } else {
        assert Contribution(line, lines[i + 1]) == None;
      }
      i := i + 1;
    }
    assert cs[..i] == cs;
  }

  /** `process_pdf_stream` once the text has been extracted: split it into lines and scan them. */
  method ProcessText(text: string) returns (pos: int, neg: int)
    ensures Totals(pos, neg) == ScanTotals(SplitLines(text))
  {
    var lines := SplitLines(text);
    pos, neg := Scan(lines);
  }

  // ----- properties of the fold -----

  /** The sum of two pairs of totals. */
  function Plus(a: Totals, b: Totals): Totals {
    Totals(a.pos + b.pos, a.neg + b.neg)
  }

  lemma AddPlus(a: Totals, b: Totals, c: Option<int>)
    ensures Add(Plus(a, b), c) == Plus(a, Add(b, c))
  {
  }

  /** Adding up two sequences of contributions one after the other adds their totals. */
  lemma {:induction false} SumAppend(a: seq<Option<int>>, b: seq<Option<int>>)
    ensures Sum(a + b) == Plus(Sum(a), Sum(b))
    decreases |b|
  {
    if b == [] {
      SumAppendNothing(a, b);
    } else {
      var init, last := b[..|b| - 1], b[|b| - 1];
      assert (a + b)[..|a + b| - 1] == a + init && (a + b)[|a + b| - 1] == last;
      calc {
        Sum(a + b);
        Add(Sum(a + init), last);
        { SumAppend(a, init); }
        Add(Plus(Sum(a), Sum(init)), last);
        { AddPlus(Sum(a), Sum(init), last); }
        Plus(Sum(a), Add(Sum(init), last));
        { assert b == init + [last]; }
        Plus(Sum(a), Sum(b));
      }
    }
  }

  lemma SumAppendNothing(a: seq<Option<int>>, b: seq<Option<int>>)
    requires b == []
    ensures Sum(a + b) == Plus(Sum(a), Sum(b))
  {
    assert a + b == a;
    assert Sum(b) == Zero;
  }

  /** Entry `i` is what the rule makes of line `i` followed by line `i + 1`. */
  lemma {:induction false} PairwiseAt<T>(f: (string, string) -> T, lines: seq<string>, i: nat)
    requires i < |lines| - 1
    ensures Pairwise(f, lines)[i] == f(lines[i], lines[i + 1])
    decreases |lines|
  {
    var n := |lines|;
    if i < n - 2 {
      var init := lines[..n - 1];
      PairwiseAt(f, init, i);
      assert init[i] == lines[i] && init[i + 1] == lines[i + 1];
    }
  }

  /** The totals after one more contribution: it is added to those before. */
  lemma SumStep(cs: seq<Option<int>>, i: nat)
    requires i < |cs|
    ensures Sum(cs[..i + 1]) == Add(Sum(cs[..i]), cs[i])
  {
    assert cs[..i + 1][..i] == cs[..i];
  }

  /** Contributions that are all None add up to (0, 0). */
  lemma {:induction false} SumOfNothing(cs: seq<Option<int>>)
    requires forall i :: 0 <= i < |cs| ==> cs[i] == None
    ensures Sum(cs) == Zero
    decreases |cs|
  {
    if cs != [] {
      SumOfNothing(cs[..|cs| - 1]);
    }
  }

  /** Appending a line to a non-empty text makes its former last line a
      candidate, with the new line as its successor. */
  lemma PairwiseAppendLine<T>(f: (string, string) -> T, lines: seq<string>, x: string)
    requires lines != []
    ensures Pairwise(f, lines + [x]) == Pairwise(f, lines) + [f(lines[|lines| - 1], x)]
  {
    var l := lines + [x];
    assert l[..|l| - 1] == lines && l[|l| - 2] == lines[|lines| - 1];
  }

  /** Appending a line adds the contribution of the former last line, now followed
      by it, and nothing else: the new last line is not a candidate. */
  lemma ScanAppendLine(lines: seq<string>, x: string)
    ensures ScanTotals(lines + [x]) ==
      if lines == [] then Zero else Add(ScanTotals(lines), Contribution(lines[|lines| - 1], x))
  {
    if lines != [] {
      PairwiseAppendLine(Contribution, lines, x);
      var cs := Contributions(lines + [x]);
      assert cs[..|cs| - 1] == Contributions(lines);
    }
  }

  /** A two-line text has one candidate: its first line, followed by its second. */
  lemma ScanTwoLines(a: string, b: string)
    ensures ScanTotals([a, b]) == Add(Zero, Contribution(a, b))
  {
    var c := Contribution(a, b);
    assert Contributions([a, b]) == [c];
    calc {
      Sum([c]);
      { assert [c][..0] == []; }
      Add(Sum([]), c);
    }
  }

  /** A deposit line ending in a printed amount, followed by a confirmation line,
      scans to that amount in the total its sign selects. */
  lemma ConfirmedDepositPair(desc: string, c: int, next: string)
    requires DepositMatches(desc + " " + AmountText(c))
    requires IsConfirmation(next)
    ensures ScanTotals([desc + " " + AmountText(c), next]) == if c >= 0 then Totals(c, 0) else Totals(0, c)
  {
    PrintedAmountIsRead(desc, c);
    ConfirmedPair(desc + " " + AmountText(c), c, next);
  }

  /** A deposit line whose amount is `c`, followed by a confirmation line. */
  lemma ConfirmedPair(line: string, c: int, next: string)
    requires DepositMatches(line) && AmountToken(line) == Some(c) && IsConfirmation(next)
    ensures ScanTotals([line, next]) == if c >= 0 then Totals(c, 0) else Totals(0, c)
  {
    assert IsDepositLine(line);
    assert Contribution(line, next) == Some(c);
    ScanTwoLines(line, next);
  }

  /** A text none of whose lines matches DEPOSIT_RE scans to (0, 0). */
  lemma NoDepositLineNoTotals(lines: seq<string>)
    requires forall i :: 0 <= i < |lines| ==> !DepositMatches(lines[i])
    ensures ScanTotals(lines) == Zero
  {
    var cs := Contributions(lines);
    forall i | 0 <= i < |cs| ensures cs[i] == None {
      PairwiseAt(Contribution, lines, i);
      assert !DepositMatches(lines[i]);
    }
    SumOfNothing(cs);
  }

  /** The pairs of two texts joined: those of the first, the pair the join
      creates, those of the second. */
  lemma {:induction false} PairwiseConcat<T>(f: (string, string) -> T, a: seq<string>, b: seq<string>)
    requires a != [] && b != []
    ensures Pairwise(f, a + b) == Pairwise(f, a) + [f(a[|a| - 1], b[0])] + Pairwise(f, b)
    decreases |b|
  {
    if |b| == 1 {
      assert a + b == a + [b[0]];
      PairwiseAppendLine(f, a, b[0]);
    } else {
      var init, y := b[..|b| - 1], b[|b| - 1];
      assert a + b == (a + init) + [y] && b == init + [y] && init[0] == b[0];
      PairwiseConcat(f, a, init);
      PairwiseAppendLine(f, a + init, y);
      assert (a + init)[|a + init| - 1] == init[|init| - 1];
      PairwiseAppendLine(f, init, y);
    }
  }

  /** Scanning two texts one after the other adds their totals, together with the
      contribution of the pair that the join creates: the first text's last line
      followed by the second text's first line. */
  lemma ScanConcat(a: seq<string>, b: seq<string>)
    requires a != [] && b != []
    ensures ScanTotals(a + b) == Plus(Add(ScanTotals(a), Contribution(a[|a| - 1], b[0])), ScanTotals(b))
  {
    var ca, c := Contributions(a), Contribution(a[|a| - 1], b[0]);
    PairwiseConcat(Contribution, a, b);
    SumAppend(ca + [c], Contributions(b));
    assert (ca + [c])[..|ca|] == ca;
  }

  /** Whether index i counts, and for how much, depends only on lines[i] and
      lines[i+1]: texts of the same length whose adjacent pairs contribute alike
      scan alike. */
  lemma ScanIsPairwise(a: seq<string>, b: seq<string>)
    requires |a| == |b|
    requires forall i :: 0 <= i < |a| - 1 ==> Contribution(a[i], a[i + 1]) == Contribution(b[i], b[i + 1])
    ensures ScanTotals(a) == ScanTotals(b)
  {
    var ca, cb := Contributions(a), Contributions(b);
    forall i | 0 <= i < |ca| ensures ca[i] == cb[i] {
      PairwiseAt(Contribution, a, i);
      PairwiseAt(Contribution, b, i);
    }
    assert ca == cb;
  }
}
