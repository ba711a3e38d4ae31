/**
 * The upload handler `index` on a POST: every uploaded file whose name, lower-cased,
 * ends with ".pdf" is extracted and scanned and gives one result entry, in upload
 * order; other files are skipped. PDF text extraction is not modelled: an upload
 * carries what the extractor returns for each of its pages, `None` for a page
 * without text. Rendering the entries as HTML is not modelled either.
 */
module Uploads {
  import opened Wrappers
  import opened Lines
  import opened Scanner

  datatype Upload = Upload(filename: string, pages: seq<Option<string>>)

  /** One result line: the file name and its two totals in cents. */
  datatype Entry = Entry(filename: string, pos: int, neg: int)

  // ----- the extracted text -----

  /** A page's extracted text, or the empty text when the extractor found none. */
  function PageText(page: Option<string>): string {
    match page
    case Some(text) => text
    case None => ""
  }

  /** The texts joined into one, with '\n' between neighbours. */
  function JoinWithNewlines(texts: seq<string>): string {
    if texts == [] then ""
    else if |texts| == 1 then texts[0]
    else texts[0] + "\n" + JoinWithNewlines(texts[1..])
  }

  /** The whole document's text: every page's text, an empty one for a page
      without text, joined with '\n'. */
  function ExtractedText(pages: seq<Option<string>>): string {
    JoinWithNewlines(seq(|pages|, i requires 0 <= i < |pages| => PageText(pages[i])))
  }

  lemma {:induction false} JoinWithNewlinesTerminated(texts: seq<string>)
    requires texts != []
    ensures JoinWithNewlines(texts) + "\n" == JoinLines(texts)
    decreases |texts|
  {
    if |texts| == 1 {
      assert JoinLines(texts) == texts[0] + "\n" + JoinLines([]);
    } else {
      JoinWithNewlinesTerminated(texts[1..]);
    }
  }

  lemma {:induction false} JoinWithNewlinesLast(texts: seq<string>)
    requires texts != [] && texts[|texts| - 1] != []
    ensures JoinWithNewlines(texts) != []
    ensures JoinWithNewlines(texts)[|JoinWithNewlines(texts)| - 1] == texts[|texts| - 1][|texts[|texts| - 1]| - 1]
    decreases |texts|
  {
    if |texts| > 1 {
      JoinWithNewlinesLast(texts[1..]);
    }
  }

  /** Page texts without newlines, the last of them not empty, come back out of
      `splitlines` as the lines, one per page and in page order. */
  lemma SplitJoinedPages(texts: seq<string>)
    requires texts != [] && texts[|texts| - 1] != []
    requires forall i :: 0 <= i < |texts| ==> NoNewline(texts[i])
    ensures SplitLines(JoinWithNewlines(texts)) == texts
  {
    var t := JoinWithNewlines(texts);
    JoinWithNewlinesLast(texts);
    assert texts[|texts| - 1][|texts[|texts| - 1]| - 1] != '\n';
    JoinSplit(t);
    JoinWithNewlinesTerminated(texts);
    assert JoinLines(SplitLines(t)) == JoinLines(texts);
    SplitJoin(SplitLines(t));
    SplitJoin(texts);
  }

  // ----- the file name filter -----

  /** ASCII lower case of one character. */
  function LowerChar(c: char): char {
    if 'A' <= c <= 'Z' then (c as int + 32) as char else c
  }

  /** The name lower-cased, on ASCII letters. */
  function Lower(name: string): (r: string)
    ensures |r| == |name|
  {
    seq(|name|, i requires 0 <= i < |name| => LowerChar(name[i]))
  }

  /** The upload is taken for a PDF: its name, lower-cased, ends with ".pdf". */
  predicate IsPdfName(fname: string) {
    var lower := Lower(fname);
    |lower| >= 4 && lower[|lower| - 4..] == ".pdf"
  }

  /** A name is taken exactly when it ends with a point and the letters p, d, f,
      each in either case. */
  lemma PdfNameCharacters(fname: string)
    ensures IsPdfName(fname) <==>
      |fname| >= 4
      && fname[|fname| - 4] == '.'
      && (fname[|fname| - 3] == 'p' || fname[|fname| - 3] == 'P')
      && (fname[|fname| - 2] == 'd' || fname[|fname| - 2] == 'D')
      && (fname[|fname| - 1] == 'f' || fname[|fname| - 1] == 'F')
  {
    if |fname| >= 4 {
      var n := |fname|;
      var tail := Lower(fname)[n - 4..];
      assert tail[0] == LowerChar(fname[n - 4]) && tail[1] == LowerChar(fname[n - 3]);
      assert tail[2] == LowerChar(fname[n - 2]) && tail[3] == LowerChar(fname[n - 1]);
      assert tail == ".pdf" <==> tail[0] == '.' && tail[1] == 'p' && tail[2] == 'd' && tail[3] == 'f';
    }
  }

  // ----- the results -----

  /** The entries that `index` lists for the uploads, in upload order. */
  function Results(uploads: seq<Upload>): (r: seq<Entry>)
    ensures |r| <= |uploads|
    ensures forall k :: 0 <= k < |r| ==> IsPdfName(r[k].filename)
  {
    if uploads == [] then []
    else
      var u := uploads[0];
      var rest := Results(uploads[1..]);
      if IsPdfName(u.filename) then
        var totals := ScanTotals(SplitLines(ExtractedText(u.pages)));
        [Entry(u.filename, totals.pos, totals.neg)] + rest
      else
        rest
  }

  /** The results of a batch are the results of its first part followed by those
      of the rest: entries keep the upload order and files do not affect one another. */
  lemma {:induction false} ResultsAppend(a: seq<Upload>, b: seq<Upload>)
    ensures Results(a + b) == Results(a) + Results(b)
    decreases |a|
  {
    if a == [] {
      assert a + b == b;
    } else {
      assert (a + b)[0] == a[0] && (a + b)[1..] == a[1..] + b;
      ResultsAppend(a[1..], b);
    }
  }

  /** The loop of `index`: scan each PDF upload and append its entry. */
  method Index(uploads: seq<Upload>) returns (results: seq<Entry>)
    ensures results == Results(uploads)
  {
    results := [];
    var k := 0;
    while k < |uploads|
      invariant 0 <= k <= |uploads|
      invariant results == Results(uploads[..k])
    {
      var u := uploads[k];
      assert uploads[..k + 1] == uploads[..k] + [u];
      ResultsAppend(uploads[..k], [u]);
      if IsPdfName(u.filename) {
        var pos, neg := ProcessText(ExtractedText(u.pages));
        results := results + [Entry(u.filename, pos, neg)];
      }
      k := k + 1;
    }
    assert uploads[..k] == uploads;
  }
}
