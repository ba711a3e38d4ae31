# Bank of America deposit scanner — a Dafny model

The program is a small web service. A user uploads bank-statement PDFs. For every
upload whose name ends in `.pdf`, it extracts the text of all pages and walks
through the lines. A line counts when three things hold:

- it names one of the two originators, "BANK OF AMERICA" or "BOFA MERCH SVCS",
  followed by whitespace and "DES:DEPOSIT", in any letter case (DEPOSIT_RE);
- it ends in an amount such as `1,234.56` or `-45.00` (AMT_RE);
- the next line starts with "ID:" and contains "CCD".

The amount of a counted line goes to the deposit total when it is at least zero,
and to the withdrawal total otherwise. The service lists the two totals per file.

This project models that core and proves properties of it:

- `text.dfy`: character classes (`\s`, `\d`), greedy runs, ASCII case folding, literal search.
- `patterns.dfy`: DEPOSIT_RE, PAGE_RE and the confirmation test.
  - Each regular expression is given twice: a declarative ghost predicate and a greedy matcher.
  - The two are proved equal at every start position.
- `amounts.dfy`: AMT_RE.
  - The leftmost-match search, with `$` meaning the end of the line or the point just before a final newline.
  - The value of a match in cents.
  - A printer for amounts, proved to be read back exactly.
- `lines.dfy`: splitting text into lines, and its inverse.
- `scanner.dfy`: the scan.
  - A specification: each candidate's contribution (`Contributions`), added up (`Sum`).
  - The imperative loop `Scan`, proved equal to that specification.
  - Lemmas about how the totals compose.
- `uploads.dfy`: the per-file loop of the upload handler and the `.pdf` name filter.
- `examples.dfy`: statement fragments worked through the model.

Amounts are exact integers in cents rather than floating-point dollars. `-0.00`
reads as zero and goes to the deposit total, as it does in the program.

Two consequences of the patterns as written:

- Text between the originator and DES:DEPOSIT stops a match, because only
  whitespace is allowed there. So "BANK OF AMERICA XYZ DES:DEPOSIT 1,234.56" is not
  a deposit line (`ScannerExamples.InterveningWordNoMatch`).
- AMT_RE is not anchored at the start. An amount written without thousands
  separators is read from its last three integer digits: `12345.67` is read as
  345.67 (`ScannerExamples.UnanchoredAmountExample`).

## Model

| member | source | states |
|---|---|---|
| Text.Span | can_abi_servis.py:16-19 | greedy `\s+`/`\d+`: every character from `a` up to the result is in the class, and the character at the result (if any) is not |
| Text.FoldCase | can_abi_servis.py:19 | IGNORECASE on ASCII: the folded character is never a lower-case letter and differs from the input only by letter case |
| Text.ContainsFrom | can_abi_servis.py:48 | the substring test `"CCD" in ...`: true exactly when the literal occurs at some position from `i` on |
| Patterns.SpacedDesDepositGreedy | can_abi_servis.py:19 | consuming all the whitespace after the originator loses no match of `\s+DES:DEPOSIT` |
| Patterns.DepositGreedy | can_abi_servis.py:19 | the greedy DEPOSIT_RE matcher accepts at a position exactly when the pattern can match there |
| Patterns.SearchDeposit | can_abi_servis.py:44 | the search succeeds exactly when a match of DEPOSIT_RE starts at some position from `i` on |
| Patterns.IsDepositLine | can_abi_servis.py:44 | `DEPOSIT_RE.search(line)` is truthy exactly when the line holds a match somewhere |
| Patterns.OriginatorThenDesDeposit | can_abi_servis.py:19 | an originator in any case, a non-empty whitespace run and DES:DEPOSIT in any case make a deposit line, whatever surrounds them |
| Patterns.DepositAtShift | can_abi_servis.py:44 | the search is unanchored: text put in front of a line keeps its match, shifted |
| Patterns.InterveningTextBlocksMatch | can_abi_servis.py:19 | after an originator, a first non-whitespace character other than D/d rules out a match at that originator |
| Patterns.IsConfirmation | can_abi_servis.py:48 | the next line confirms exactly when its first three characters are "ID:" and "CCD" occurs in it |
| Patterns.ConfirmationAccepted | can_abi_servis.py:48 | every line of the form "ID:" + x + "CCD" + y confirms |
| Patterns.SpacedDigitGreedy | can_abi_servis.py:16 | the greedy matcher for `\s+\d` agrees with the pattern |
| Patterns.OfTailGreedy | can_abi_servis.py:16 | the greedy matcher for `\s+of\s+\d` agrees with the pattern |
| Patterns.NumberedTailGreedy | can_abi_servis.py:16 | the greedy matcher for `(\d+)\s+of\s+\d+` yields `n` exactly when the pattern matches with group 1 worth `n` |
| Patterns.PageGreedy | can_abi_servis.py:16 | the greedy PAGE_RE matcher yields `n` at a position exactly when PAGE_RE matches there with group 1 worth `n` |
| Patterns.SearchPage | can_abi_servis.py:39-41 | a page number found is group 1 of the leftmost PAGE_RE match, with no match at any earlier position; none found means no match at any position |
| Patterns.SearchPageFinds | can_abi_servis.py:39-41 | a PAGE_RE match with no match before it is the one the search returns, so its group 1 is the page number |
| Amounts.FindAmount | can_abi_servis.py:45 | the result is the leftmost start of an AMT_RE match; no result means no position matches |
| Amounts.AmountToken | can_abi_servis.py:45-49 | no value exactly when AMT_RE matches nowhere; otherwise the value of the leftmost match with its commas removed |
| Amounts.RemoveCommas | can_abi_servis.py:49 | no comma is left, and digits with commas become digits only |
| Amounts.RemoveCommasAppend | can_abi_servis.py:49 | removing commas from two texts joined gives the two results joined |
| Amounts.RemoveCommasOfDigits | can_abi_servis.py:49 | removing commas from plain digits changes nothing |
| Amounts.GroupedDigitsCharacters | can_abi_servis.py:17 | the grouped-digits part of AMT_RE holds only digits and commas |
| Amounts.GroupedAppend | can_abi_servis.py:17 | a grouped number followed by a comma and three digits is still a grouped number |
| Amounts.GroupedRoundTrip | can_abi_servis.py:17 | the comma-grouped form of `n` matches the grouped-digits part of AMT_RE and is worth `n` once its commas are removed |
| Amounts.AmountTextRoundTrip | can_abi_servis.py:49 | every printed amount matches AMT_RE whole and reads back as the same number of cents |
| Amounts.MinusNegates | can_abi_servis.py:49 | a leading minus negates the value read |
| Amounts.AmountTextCharacters | can_abi_servis.py:17 | every character of an AMT_RE match is a digit, a comma, a point or a minus sign |
| Amounts.NoAmountAcrossSpace | can_abi_servis.py:17 | no AMT_RE match starts at or before a space in the line |
| Amounts.PrintedAmountIsRead | can_abi_servis.py:45-49 | a line ending in a space and a printed amount is read as exactly that amount, whatever precedes it |
| Lines.SplitLines | can_abi_servis.py:34 | no line holds a newline, and there are no lines exactly when the text is empty |
| Lines.SplitLinesCons | can_abi_servis.py:34 | the first line is everything before the first newline |
| Lines.SplitJoin | can_abi_servis.py:34 | splitting lines written out one per line gives the lines back |
| Lines.JoinSplit | can_abi_servis.py:34 | writing out the lines of a text gives the text back, with a final newline added if it had none |
| Scanner.ContributionQualifies | can_abi_servis.py:44-49 | a line contributes exactly when it matches DEPOSIT_RE, AMT_RE matches it, and the next line starts with "ID:" and contains "CCD"; the contribution is the value of the leftmost amount match |
| Scanner.Pairwise | can_abi_servis.py:37 | every line but the last is a candidate: one entry per line except the last |
| Scanner.PairwiseAt | can_abi_servis.py:37-46 | candidate `i` is judged on line `i` and line `i + 1` |
| Scanner.Sum | can_abi_servis.py:50-53 | the deposit total is never negative and the withdrawal total never positive |
| Scanner.ScanTotals | can_abi_servis.py:34-55 | signs as for `Sum`; a text of fewer than two lines gives (0, 0) |
| Scanner.Scan | can_abi_servis.py:35-55 | the loop returns exactly the specified totals of its lines |
| Scanner.ProcessText | can_abi_servis.py:34-55 | the scan of extracted text returns the specified totals of its lines |
| Scanner.SumAppend | can_abi_servis.py:50-53 | adding up two runs of contributions one after the other gives the sum of their totals |
| Scanner.SumOfNothing | can_abi_servis.py:50-53 | candidates that contribute nothing leave both totals at zero |
| Scanner.PairwiseAppendLine | can_abi_servis.py:37-46 | a new last line makes the former last line a candidate, looking at the new line |
| Scanner.PairwiseConcat | can_abi_servis.py:37-46 | joining two texts gives the candidates of both, plus one for the pair at the join |
| Scanner.ScanAppendLine | can_abi_servis.py:37-53 | a new last line adds only the contribution of the former last line |
| Scanner.ScanTwoLines | can_abi_servis.py:37-53 | a two-line text is scanned as its first line followed by its second |
| Scanner.ConfirmedDepositPair | can_abi_servis.py:44-53 | a deposit line ending in a printed amount, then a confirmation, adds that amount to the total its sign selects |
| Scanner.ConfirmedPair | can_abi_servis.py:44-53 | a deposit line whose leftmost amount is `c`, followed by a confirmation, adds `c` to the total its sign selects and nothing to the other |
| Scanner.NoDepositLineNoTotals | can_abi_servis.py:44 | a text with no DEPOSIT_RE match gives (0, 0) |
| Scanner.ScanConcat | can_abi_servis.py:37-53 | scanning two texts joined gives the sum of their totals plus the contribution of the pair at the join |
| Scanner.ScanIsPairwise | can_abi_servis.py:37-53 | texts of equal length whose adjacent pairs contribute alike scan alike |
| Uploads.JoinWithNewlinesTerminated | can_abi_servis.py:32 | the joined page texts plus a final newline are the pages written out one per line |
| Uploads.SplitJoinedPages | can_abi_servis.py:32-34 | page texts without newlines, the last non-empty, split back into exactly those texts, one line per page |
| Uploads.PdfNameCharacters | can_abi_servis.py:121 | a name is taken exactly when it ends in a point and p, d, f, each in either case |
| Uploads.Results | can_abi_servis.py:119-124 | at most one entry per upload, and every entry's name passes the `.pdf` test |
| Uploads.ResultsAppend | can_abi_servis.py:119-124 | entries keep the upload order, and for uploads whose text extracts, no file affects another's entry |
| Uploads.Index | can_abi_servis.py:117-124 | the handler's loop lists exactly the specified entries |
| ScannerExamples.WithdrawalExample | can_abi_servis.py:50-53 | "BOFA MERCH SVCS DES:DEPOSIT -45.00" confirmed by "ID:999 CCD" gives (0, -45.00) |
| ScannerExamples.LowerCaseExample | can_abi_servis.py:19 | the lower-case line "bank of america des:deposit 10.00", confirmed, gives (10.00, 0) |
| ScannerExamples.TwoDepositsExample | can_abi_servis.py:37-53 | two confirmed 100.00 deposits give (200.00, 0) |
| ScannerExamples.UnconfirmedExamples | can_abi_servis.py:48 | a deposit line that is last, or is followed by "MEMO CCD", adds nothing |
| ScannerExamples.MemoIsNoConfirmation | can_abi_servis.py:48 | "MEMO CCD" contains "CCD" but does not confirm |
| ScannerExamples.InterveningWordNoMatch | can_abi_servis.py:19 | "BANK OF AMERICA XYZ DES:DEPOSIT 1,234.56" does not match DEPOSIT_RE |
| ScannerExamples.InterveningWordExample | can_abi_servis.py:44 | that line adds nothing, whatever follows it |
| ScannerExamples.NoOriginatorAfter | can_abi_servis.py:19 | no match starts where no character folds to 'B' |
| ScannerExamples.UnanchoredAmountExample | can_abi_servis.py:45-49 | "12345.67" is read as 345.67 |
| ScannerExamples.PageMarkerExample | can_abi_servis.py:39-41 | a line opening with "Page 1 of 2" announces page 1 |
| ScannerExamples.DepositAfterPageMarker | can_abi_servis.py:44 | a page marker before the originator does not stop the deposit match |

## Left out

- PDF text extraction: an upload carries each page's extracted text, or `None` for a page without text.
- The web layer is not modelled: the Flask app and route, the HTML template, and `app.run`.
- The summary string with its four-decimal formatting is not modelled; an entry carries the two totals.
- Scanner.Sum: totals are exact sums in cents. The program adds floating-point dollars, so its totals can carry rounding error that the model does not.
- Scanner.Scan: the page number is tracked in a local variable, as in the program. The program never reads it, so no contract mentions it.
- Scanner.Scan: does not model the failure of the page-number conversion. The program converts group 1 of PAGE_RE with `int`, which raises ValueError on a run of more than 4300 digits (CPython's default limit on converting text to an integer); the scan then ends with that exception instead of totals. The model reads a digit run of any length, so a page marker never changes its outcome.
- Uploads.Index: does not model a failing extraction. A corrupt upload makes the PDF library raise while opening or reading it (can_abi_servis.py:31-32), and the handler calls the scan without a `try` (can_abi_servis.py:122), so the whole request fails and no file gets an entry. The model takes each upload's page texts as already extracted; Uploads.ResultsAppend's independence of entries holds only for uploads that extract.
- Lines.SplitLines: splits at '\n' only. Python's `splitlines` also splits at '\r', "\r\n", '\v', '\f', 0x1C-0x1E, 0x85, U+2028 and U+2029. A page text holding one of those would be split into more lines by the program.
- Text.IsSpace: ASCII whitespace only. Python's `\s` on text also matches Unicode spaces such as U+00A0.
- Text.IsDigit: ASCII digits only. Python's `\d` on text also matches other Unicode decimal digits.
- Text.FoldCase: folds ASCII letters only. Python's IGNORECASE on text also folds non-ASCII letters that case-fold onto ASCII ones.
- Uploads.Lower: lower-cases ASCII letters only.
- The older, commented-out version of `process_pdf_stream` (lines 57-90) is dead code and is not modelled.
