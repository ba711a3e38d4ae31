/**
 * Splitting text into lines, for text whose only line separator is '\n' (the extracted
 * pages are joined with '\n'), and its partner: writing lines back out, each
 * followed by '\n'. As in Python, a final '\n' does not start another line and
 * the empty text has no lines at all.
 */
module Lines {

  predicate NoNewline(line: string) {
    forall j :: 0 <= j < |line| ==> line[j] != '\n'
  }

  /** The position of the first '\n' at or after `i`, or the end of `s`. */
  function NextNewline(s: string, i: nat): (k: nat)
    requires i <= |s|
    ensures i <= k <= |s|
    ensures k == |s| || s[k] == '\n'
    ensures forall j :: i <= j < k ==> s[j] != '\n'
    decreases |s| - i
  {
    if i == |s| || s[i] == '\n' then i else NextNewline(s, i + 1)
  }

  /** The lines of a text, split at each '\n'. */
  function SplitLines(text: string): (lines: seq<string>)
    ensures forall i :: 0 <= i < |lines| ==> NoNewline(lines[i])
    ensures lines == [] <==> text == []
    decreases |text|
  {
    if text == [] then []
    else
      var k := NextNewline(text, 0);
      if k == |text| then [text] else [text[..k]] + SplitLines(text[k + 1..])
  }

  /** The lines written out, each followed by '\n'. */
  function JoinLines(lines: seq<string>): string {
    if lines == [] then [] else lines[0] + "\n" + JoinLines(lines[1..])
  }

  /** The first line of a text is everything up to its first newline. */
  lemma SplitLinesCons(line: string, rest: string)
    requires NoNewline(line)
    ensures SplitLines(line + "\n" + rest) == [line] + SplitLines(rest)
  {
    var t := line + "\n" + rest;
    assert t[|line|] == '\n';
    assert forall j :: 0 <= j < |line| ==> t[j] == line[j];
    assert NextNewline(t, 0) == |line|;
    assert t[..|line|] == line && t[|line| + 1..] == rest;
  }

  lemma JoinLinesCons(line: string, lines: seq<string>)
    ensures JoinLines([line] + lines) == line + "\n" + JoinLines(lines)
  {
    assert ([line] + lines)[1..] == lines;
  }

  /** Splitting what was written out gives back the lines. */
  lemma {:induction false} SplitJoin(lines: seq<string>)
    requires forall i :: 0 <= i < |lines| ==> NoNewline(lines[i])
    ensures SplitLines(JoinLines(lines)) == lines
    decreases |lines|
  {
    if lines != [] {
      SplitLinesCons(lines[0], JoinLines(lines[1..]));
      SplitJoin(lines[1..]);
    }
  }

  /** Writing out the lines of a text gives back the text, with a final newline
      added when the text has none (the empty text stays empty). */
  lemma {:induction false} JoinSplit(text: string)
    ensures JoinLines(SplitLines(text)) ==
      if text == [] || text[|text| - 1] == '\n' then text else text + "\n"
    decreases |text|
  {
    if text != [] {
      var k := NextNewline(text, 0);
      if k == |text| {
        assert SplitLines(text) == [text];
        assert JoinLines([text]) == text + "\n" + JoinLines([]);
      } else {
        var line, rest := text[..k], text[k + 1..];
        assert text == line + "\n" + rest;
        assert forall j :: 0 <= j < |line| ==> line[j] == text[j];
        SplitLinesCons(line, rest);
        JoinSplit(rest);
        JoinLinesCons(line, SplitLines(rest));
        if rest != [] {
          assert text[|text| - 1] == rest[|rest| - 1];
        }
      }
    }
  }
}
