/**
 * The amount pattern AMT_RE, `([\-]?[0-9]{1,3}(?:,[0-9]{3})*\.\d{2})$`, searched
 * (not anchored at the start), and the value of its match with the thousands
 * separators removed. Amounts are exact integers in cents: the pattern admits
 * exactly two decimal places.
 */
module Amounts {
  import opened Wrappers
  import opened Text

  /** `[0-9]{1,3}(?:,[0-9]{3})*` matches the whole of `g`: read from the right,
      groups of a comma and three digits, down to a lead of one to three digits. */
  predicate GroupedDigits(g: string)
  {
    if |g| <= 3 then 1 <= |g| && AllDigits(g)
    else |g| >= 5 && g[|g| - 4] == ',' && AllDigits(g[|g| - 3..]) && GroupedDigits(g[..|g| - 4])
  }

  /** `t` without its leading minus sign, if it has one. */
  function Unsigned(t: string): string {
    if |t| > 0 && t[0] == '-' then t[1..] else t
  }

  /** The whole of `t` matches the body of AMT_RE: an optional `-`, grouped
      digits, a point and exactly two digits. */
  predicate IsAmountText(t: string) {
    var u := Unsigned(t);
    |u| >= 4 && u[|u| - 3] == '.' && AllDigits(u[|u| - 2..]) && GroupedDigits(u[..|u| - 3])
  }

  /** Where `$` can match: the end of the line, or just before a newline that ends it. */
  function AmountEnd(s: string): (e: nat)
    ensures e <= |s|
  {
    if |s| > 0 && s[|s| - 1] == '\n' then |s| - 1 else |s|
  }

  /** AMT_RE matches with its match starting at `p`. As the body ends in a digit,
      the match can only end where `$` holds, at AmountEnd(s). */
  predicate AmountMatchAt(s: string, p: nat) {
    p <= AmountEnd(s) && IsAmountText(s[p..AmountEnd(s)])
  }

  /** The start of the leftmost match of AMT_RE at or after position `p`. */
  function FindAmount(s: string, p: nat): (r: Option<nat>)
    requires p <= AmountEnd(s)
    ensures r.Some? ==> p <= r.value && AmountMatchAt(s, r.value)
    ensures r.Some? ==> forall q :: p <= q < r.value ==> !AmountMatchAt(s, q)
    ensures r.None? ==> forall q :: p <= q <= AmountEnd(s) ==> !AmountMatchAt(s, q)
    decreases AmountEnd(s) - p
  {
    if AmountMatchAt(s, p) then Some(p)
    else if p == AmountEnd(s) then None
    else FindAmount(s, p + 1)
  }

  /** The text with every comma removed. */
  function RemoveCommas(g: string): (r: string)
    ensures forall i :: 0 <= i < |r| ==> r[i] != ','
    ensures DigitsAndCommas(g) ==> AllDigits(r)
  {
    if g == [] then []
    else (if g[0] == ',' then [] else [g[0]]) + RemoveCommas(g[1..])
  }

  predicate DigitsAndCommas(g: string) {
    forall i :: 0 <= i < |g| ==> IsDigit(g[i]) || g[i] == ','
  }

  /** A grouped number consists of digits and commas only. */
  lemma {:induction false} GroupedDigitsCharacters(g: string)
    requires GroupedDigits(g)
    ensures DigitsAndCommas(g)
  {
    if |g| > 3 {
      GroupedDigitsCharacters(g[..|g| - 4]);
      forall i | 0 <= i < |g| ensures IsDigit(g[i]) || g[i] == ',' {
        if i < |g| - 4 {
          assert g[i] == g[..|g| - 4][i];
        } else if i > |g| - 4 {
          assert g[i] == g[|g| - 3..][i - (|g| - 3)];
        }
      }
    }
  }

  /** Removing the commas from a grouped number leaves only digits. */
  lemma GroupedDigitsStripped(g: string)
    requires GroupedDigits(g)
    ensures AllDigits(RemoveCommas(g))
  {
    GroupedDigitsCharacters(g);
  }

  /** The value of a matched amount once its commas are removed, exactly, in cents
      (the scanner reads it as a floating-point number of dollars). */
  function Cents(t: string): int
    requires IsAmountText(t)
  {
    var u := Unsigned(t);
    GroupedDigitsStripped(u[..|u| - 3]);
    var magnitude := DigitsValue(RemoveCommas(u[..|u| - 3])) * 100 + DigitsValue(u[|u| - 2..]);
    if |t| > 0 && t[0] == '-' then -magnitude else magnitude
  }

  /** The match of AMT_RE that a search returns starts at `p`: the leftmost start that matches. */
  ghost predicate LeftmostAmountAt(s: string, p: nat) {
    AmountMatchAt(s, p) && forall q :: 0 <= q < p ==> !AmountMatchAt(s, q)
  }

  /** `AMT_RE.search(line)`, its group 1 read as an amount in cents. */
  function AmountToken(line: string): (r: Option<int>)
    ensures r.None? <==> forall p :: 0 <= p <= AmountEnd(line) ==> !AmountMatchAt(line, p)
    ensures r.Some? ==> exists p: nat :: LeftmostAmountAt(line, p) && r.value == Cents(line[p..AmountEnd(line)])
  {
    match FindAmount(line, 0)
    case None => None
    case Some(p) => Some(Cents(line[p..AmountEnd(line)]))
  }

  // ----- the printed form of an amount -----

  function DigitChar(d: nat): (c: char)
    requires d < 10
    ensures IsDigit(c) && c as int - '0' as int == d
  {
    ('0' as int + d) as char
  }

  /** `n` in decimal, without leading zeros. */
  function Decimal(n: nat): (d: string)
    ensures 1 <= |d| && AllDigits(d) && DigitsValue(d) == n
    ensures n < 10 ==> |d| == 1
    ensures n < 100 ==> |d| <= 2
    ensures n < 1000 ==> |d| <= 3
  {
    if n < 10 then [DigitChar(n)]
    else
      var d := Decimal(n / 10) + [DigitChar(n % 10)];
      assert d[..|d| - 1] == Decimal(n / 10);
      d
  }

  /** `n` (below 1000) as exactly three digits. */
  function ThreeDigits(n: nat): (d: string)
    requires n < 1000
    ensures |d| == 3 && AllDigits(d)
  {
    [DigitChar(n / 100), DigitChar(n / 10 % 10), DigitChar(n % 10)]
  }

  /** `n` (below 100) as exactly two digits. */
  function TwoDigits(n: nat): (d: string)
    requires n < 100
    ensures |d| == 2 && AllDigits(d) && DigitsValue(d) == n
  {
    var d := [DigitChar(n / 10), DigitChar(n % 10)];
    assert d[..1] == [DigitChar(n / 10)] && d[..1][..0] == [];
    assert DigitsValue(d[..1]) == n / 10;
    d
  }

  /** `n` in decimal with a comma before every group of three digits. */
  function Grouped(n: nat): string
    decreases n
  {
    if n < 1000 then Decimal(n) else Grouped(n / 1000) + "," + ThreeDigits(n % 1000)
  }

  /** A statement's printed form of an amount in cents: `-1,234.56`, `0.07`. */
  function AmountText(c: int): string {
    var m := if c < 0 then -c else c;
    (if c < 0 then "-" else "") + Grouped(m / 100) + "." + TwoDigits(m % 100)
  }

  lemma {:induction false} DigitsValueAppend(a: string, b: string)
    requires AllDigits(a) && AllDigits(b)
    ensures AllDigits(a + b)
    ensures DigitsValue(a + b) == DigitsValue(a) * Pow10(|b|) + DigitsValue(b)
    decreases |b|
  {
    if b != [] {
      var b' := b[..|b| - 1];
      var last := b[|b| - 1] as int - '0' as int;
      assert (a + b)[..|a + b| - 1] == a + b';
      assert (a + b)[|a + b| - 1] == b[|b| - 1];
      DigitsValueAppend(a, b');
      calc {
        DigitsValue(a + b);
        DigitsValue(a + b') * 10 + last;
        (DigitsValue(a) * Pow10(|b'|) + DigitsValue(b')) * 10 + last;
        { MulAssoc10(DigitsValue(a), Pow10(|b'|)); }
        DigitsValue(a) * Pow10(|b|) + (DigitsValue(b') * 10 + last);
        DigitsValue(a) * Pow10(|b|) + DigitsValue(b);
      }
    } else {
      assert a + b == a;
    }
  }

  /** Regrouping a product with ten; kept apart so that the proof above stays
      linear in the solver's view. */
  lemma MulAssoc10(x: nat, y: nat)
    ensures (x * y) * 10 == x * (10 * y)
  {
  }

  function Pow10(k: nat): (r: nat)
    ensures r >= 1
  {
    if k == 0 then 1 else 10 * Pow10(k - 1)
  }

  lemma ThreeDigitsValue(n: nat)
    requires n < 1000
    ensures DigitsValue(ThreeDigits(n)) == n
  {
    var d := ThreeDigits(n);
    assert d[..2][..1] == [DigitChar(n / 100)] && d[..2][..1][..0] == [];
    assert DigitsValue(d[..2][..1]) == n / 100;
    assert DigitsValue(d[..2]) == n / 100 * 10 + n / 10 % 10;
    assert n / 100 * 10 + n / 10 % 10 == n / 10;
  }

  lemma {:induction false} RemoveCommasAppend(a: string, b: string)
    ensures RemoveCommas(a + b) == RemoveCommas(a) + RemoveCommas(b)
    decreases |a|
  {
    if a == [] {
      assert a + b == b;
    } else {
      assert (a + b)[1..] == a[1..] + b;
      RemoveCommasAppend(a[1..], b);
    }
  }

  lemma {:induction false} RemoveCommasOfDigits(d: string)
    requires AllDigits(d)
    ensures RemoveCommas(d) == d
    decreases |d|
  {
    if d != [] {
      RemoveCommasOfDigits(d[1..]);
    }
  }

  /** Appending a comma and three digits to a grouped number gives a grouped number. */
  lemma GroupedAppend(lead: string, tail: string)
    requires GroupedDigits(lead) && |tail| == 3 && AllDigits(tail)
    ensures GroupedDigits(lead + "," + tail)
  {
    var g := lead + "," + tail;
    assert g[..|g| - 4] == lead;
    assert g[|g| - 3..] == tail;
    assert g[|g| - 4] == ',';
  }

  /** Removing the commas from `lead,tail` joins the digits of both. */
  lemma RemoveCommasAppendGroup(lead: string, tail: string)
    requires AllDigits(tail)
    ensures RemoveCommas(lead + "," + tail) == RemoveCommas(lead) + tail
  {
    var sep := "," + tail;
    assert lead + "," + tail == lead + sep;
    RemoveCommasAppend(lead, sep);
    assert sep[0] == ',' && sep[1..] == tail;
    RemoveCommasOfDigits(tail);
    assert RemoveCommas(sep) == tail;
  }

  /** The grouped form is a match of the grouped-digits part of AMT_RE, worth `n`. */
  lemma {:induction false} GroupedRoundTrip(n: nat)
    ensures GroupedDigits(Grouped(n))
    ensures AllDigits(RemoveCommas(Grouped(n))) && DigitsValue(RemoveCommas(Grouped(n))) == n
    ensures IsDigit(Grouped(n)[0])
    decreases n
  {
    if n < 1000 {
      RemoveCommasOfDigits(Grouped(n));
    } else {
      var lead := Grouped(n / 1000);
      var tail := ThreeDigits(n % 1000);
      assert Grouped(n) == lead + "," + tail;
      GroupedRoundTrip(n / 1000);
      GroupedAppend(lead, tail);
      RemoveCommasAppendGroup(lead, tail);
      DigitsValueAppend(RemoveCommas(lead), tail);
      ThreeDigitsValue(n % 1000);
      assert Pow10(3) == 1000;
      assert DigitsValue(RemoveCommas(Grouped(n))) == n / 1000 * 1000 + n % 1000;
    }
  }

  /** Reading a printed amount back gives the amount: AMT_RE accepts the whole of
      AmountText(c), and removing its commas and reading it in cents gives `c`. */
  lemma AmountTextRoundTrip(c: int)
    ensures IsAmountText(AmountText(c)) && Cents(AmountText(c)) == c
  {
    var m := if c < 0 then -c else c;
    var u := Grouped(m / 100) + "." + TwoDigits(m % 100);
    UnsignedRoundTrip(m);
    if c < 0 {
      assert AmountText(c) == "-" + u;
      MinusNegates(u);
    } else {
      assert AmountText(c) == u;
    }
  }

  /** A minus sign in front of an unsigned amount negates its value. */
  lemma MinusNegates(u: string)
    requires IsAmountText(u) && Unsigned(u) == u
    ensures IsAmountText("-" + u) && Cents("-" + u) == -Cents(u)
  {
    var t := "-" + u;
    assert t[1..] == u;
    assert Unsigned(t) == u;
  }

  /** The printed form of a magnitude, without a sign, reads back as that magnitude. */
  lemma UnsignedRoundTrip(m: nat)
    ensures var u := Grouped(m / 100) + "." + TwoDigits(m % 100);
      Unsigned(u) == u && IsAmountText(u) && Cents(u) == m
  {
    var g := Grouped(m / 100);
    var f := TwoDigits(m % 100);
    var u := g + "." + f;
    GroupedRoundTrip(m / 100);
    assert u[..|u| - 3] == g && u[|u| - 3] == '.' && u[|u| - 2..] == f;
    assert u[0] == g[0];
  }

  /** Every character of a match of AMT_RE is a digit, a comma, a point or a minus sign. */
  lemma AmountTextCharacters(t: string)
    requires IsAmountText(t)
    ensures forall i :: 0 <= i < |t| ==> IsDigit(t[i]) || t[i] in ",.-"
  {
    var u := Unsigned(t);
    GroupedDigitsCharacters(u[..|u| - 3]);
    forall i | 0 <= i < |u| ensures IsDigit(u[i]) || u[i] in ",.-" {
      if i < |u| - 3 {
        assert u[i] == u[..|u| - 3][i];
      } else if i > |u| - 3 {
        assert u[i] == u[|u| - 2..][i - (|u| - 2)];
      }
    }
    if |t| > 0 && t[0] == '-' {
      forall i | 1 <= i < |t| ensures IsDigit(t[i]) || t[i] in ",.-" {
        assert t[i] == u[i - 1];
      }
    }
  }

  lemma AmountTextCharAt(t: string, i: nat)
    requires IsAmountText(t) && i < |t|
    ensures t[i] != ' '
  {
    AmountTextCharacters(t);
  }

  /** No match of AMT_RE reaches across a space. */
  lemma NoAmountAcrossSpace(s: string, q: nat, sp: nat)
    requires q <= sp < AmountEnd(s) && s[sp] == ' '
    ensures !AmountMatchAt(s, q)
  {
    if AmountMatchAt(s, q) {
      var t := s[q..AmountEnd(s)];
      AmountTextCharAt(t, sp - q);
    }
  }

  /** A line that ends with a space and a printed amount is read as that amount:
      no match can start before the space, and the printed amount matches whole. */
  lemma PrintedAmountIsRead(desc: string, c: int)
    ensures AmountToken(desc + " " + AmountText(c)) == Some(c)
  {
    var t := AmountText(c);
    var s := desc + " " + t;
    var p := |desc| + 1;
    AmountTextRoundTrip(c);
    assert t[|t| - 1] == TwoDigits((if c < 0 then -c else c) % 100)[1];
    assert s[|s| - 1] == t[|t| - 1];
    assert AmountEnd(s) == |s|;
    assert s[p..AmountEnd(s)] == t;
    assert AmountMatchAt(s, p);
    assert s[p - 1] == ' ';
    forall q | 0 <= q < p ensures !AmountMatchAt(s, q) {
      NoAmountAcrossSpace(s, q, p - 1);
    }
    var r := FindAmount(s, 0);
    assert r == Some(p);
  }
}
