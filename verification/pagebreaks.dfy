/**
 * Document-type detection and the two page-break filters applied to
 * extracted text before it is parsed. The regular expressions of the
 * filters are written out as predicates on one line; each matches at the
 * start of the line, as `re.match` does.
 */
module PageBreaks {
  import opened Wrappers
  import opened Markers
  import opened Text
  import opened Numerals

  // =====================================================================
  // Document type

  datatype DocumentType = CourtSummary | Docket

  /** `IndexError` for text without a second line, `ParseError` for an unknown type. */
  datatype DocumentTypeError = NoSecondLine | UnknownDocumentType

  /** The type named by the second line: "docket" is looked for first. */
  function TypeOfLine(line: string): Result<DocumentType, DocumentTypeError> {
    if Contains(Lower(line), "docket") then Ok(Docket)
    else if Contains(Lower(line), "court summary") then Ok(CourtSummary)
    else Err(UnknownDocumentType)
  }

  /** `get_document_type`: only the second terminator-separated line is examined. */
  function GetDocumentType(text: string): Result<DocumentType, DocumentTypeError> {
    var lines := Split(text, Terminator);
    if |lines| < 2 then Err(NoSecondLine) else TypeOfLine(lines[1])
  }

  /**
   * The document type of text made of a first line, a second line and
   * anything after a further terminator is decided by the second line
   * alone; text with no terminator has no second line.
   */
  lemma DocumentTypeOfSecondLine(first: string, second: string, rest: string)
    requires Terminator !in first && Terminator !in second
    ensures GetDocumentType(first + [Terminator] + second) == TypeOfLine(second)
    ensures GetDocumentType(first + [Terminator] + second + [Terminator] + rest) == TypeOfLine(second)
    ensures GetDocumentType(first) == Err(NoSecondLine)
  {
    SplitAtSeparator(first, second, Terminator);
    SplitWithoutSeparator(second, Terminator);
    SplitAtSeparator(first, second + [Terminator] + rest, Terminator);
    assert first + [Terminator] + second + [Terminator] + rest == first + [Terminator] + (second + [Terminator] + rest);
    SplitAtSeparator(second, rest, Terminator);
    SplitWithoutSeparator(first, Terminator);
  }

  // =====================================================================
  // The line patterns

  /** Index of the first character at or after `i` that is not a blank (`' '`). */
  function SkipBlanks(s: string, i: nat): (k: nat)
    requires i <= |s|
    ensures i <= k <= |s|
    ensures forall m :: i <= m < k ==> s[m] == ' '
    decreases |s| - i
  {
    if i < |s| && s[i] == ' ' then SkipBlanks(s, i + 1) else i
  }

  /** Index just past the run of digits that starts at `i`. */
  function DigitRun(s: string, i: nat): (k: nat)
    requires i <= |s|
    ensures i <= k <= |s|
    ensures forall m :: i <= m < k ==> IsDigit(s[m])
    ensures k == |s| || !IsDigit(s[k])
    decreases |s| - i
  {
    if i < |s| && IsDigit(s[i]) then DigitRun(s, i + 1) else i
  }

  /**
   * `[^\[]*\[[^\]]*\]` at the start of `rest`: there is a `[`, and a `]`
   * somewhere after the first one.
   */
  predicate PropertiesAhead(rest: string) {
    PropsOpen in rest && PropsClose in rest[IndexOf(rest, PropsOpen) + 1..]
  }

  /** `\[[^\]]*bold\]` at the start of `rest`: the bracketed properties of a bold segment. */
  predicate BoldProperties(rest: string) {
    && rest != [] && rest[0] == PropsOpen
    && var inner := rest[1..];
       var close := IndexOf(inner, PropsClose);
       close < |inner| && close >= 4 && inner[close - 4..close] == "bold"
  }

  /** `\d{1,2}/` at `i`: the position after the slash. */
  function NumberSlash(s: string, i: nat): Option<nat>
    requires i <= |s|
  {
    var j := DigitRun(s, i);
    if 1 <= j - i <= 2 && j < |s| && s[j] == '/' then Some(j + 1) else None
  }

  /** `\d{1,2}/\d{1,2}/\d{4}` at `i`: the position after the four-digit year. */
  function DateAt(s: string, i: nat): Option<nat>
    requires i <= |s|
  {
    match NumberSlash(s, i)
    case None => None
    case Some(j) =>
      if j > |s| then None
      else match NumberSlash(s, j)
        case None => None
        case Some(k) =>
          if k + 4 <= |s| && AllDigits(s[k..k + 4]) then Some(k + 4) else None
  }

  /** `Printed:\s*` date `[^\[]*` properties: the line that opens a page break. */
  predicate IsPrintedLine(line: string) {
    && StartsWith(line, "Printed:")
    && match DateAt(line, SkipSpaces(line, 8))
       case None => false
       case Some(k) => k <= |line| && PropertiesAhead(line[k..])
  }

  /** `v\. *` properties: the line that closes a docket page break (with the next line). */
  predicate IsVersusLine(line: string) {
    && StartsWith(line, "v.")
    && var k := SkipBlanks(line, 2);
       k < |line| && line[k] == PropsOpen && PropsClose in line[k + 1..]
  }

  /** `[^\[]*\(Continued\)` bold properties: the bold "(Continued)" that ends a court-summary page header. */
  predicate IsContinuation(line: string) {
    var k := IndexOf(line, PropsOpen);
    && k < |line| && k >= 11 && line[k - 11..k] == "(Continued)"
    && BoldProperties(line[k..])
  }

  /** `[^\[]*\(Continued\)\^[^\[]*` bold properties: "(Continued)" wrapped in one text box with more text. */
  predicate IsContinuationTextbox(line: string) {
    var k := IndexOf(line, PropsOpen);
    && k < |line| && Contains(line[..k], "(Continued)" + [BoxWrap])
    && BoldProperties(line[k..])
  }

  lemma {:induction false} ContainsHasChar(s: string, sub: string, c: char)
    requires Contains(s, sub) && c in sub
    ensures c in s
    decreases |s|
  {
    if StartsWith(s, sub) {
      var i :| 0 <= i < |sub| && sub[i] == c;
      assert s[i] == c;
    } else {
      ContainsHasChar(s[1..], sub, c);
      var i :| 0 <= i < |s[1..]| && s[1..][i] == c;
      assert s[i + 1] == c;
    }
  }

  /** A continuation text box holds a box wrap, so the text after it is defined. */
  lemma TextboxHasBoxWrap(line: string)
    requires IsContinuationTextbox(line)
    ensures BoxWrap in line
  {
    var k := IndexOf(line, PropsOpen);
    var marker := "(Continued)" + [BoxWrap];
    assert marker[11] == BoxWrap;
    ContainsHasChar(line[..k], marker, BoxWrap);
    var i :| 0 <= i < k && line[..k][i] == BoxWrap;
    assert line[i] == BoxWrap;
  }

  // =====================================================================
  // The filters

  /** The filter's state after some lines: the kept lines and the `in_page_break` flag. */
  datatype Scan = Scan(kept: seq<string>, inBreak: bool)

  /**
   * The docket filter after the first `n` lines. Line 0 is always kept; a
   * printed line opens a region; inside a region a line is dropped, and
   * the region ends (that line still dropped) once the previous line is a
   * versus line.
   */
  function DocketScan(lines: seq<string>, n: nat): Scan
    requires 1 <= n <= |lines|
  {
    if n == 1 then Scan([lines[0]], false)
    else DocketStep(DocketScan(lines, n - 1), lines[n - 2], lines[n - 1])
  }

  /** One line of the docket filter, given the line before it. */
  function DocketStep(s: Scan, previous: string, line: string): Scan {
    if s.inBreak then
      if IsVersusLine(previous) then Scan(s.kept, false) else s
    else if IsPrintedLine(line) then Scan(s.kept, true)
    else Scan(s.kept + [line], false)
  }

  /** `remove_docket_page_breaks`: the kept lines joined, plus one more terminator. */
  function DocketFilter(text: string): string {
    var lines := Split(text, Terminator);
    Join(DocketScan(lines, |lines|).kept, Terminator) + [Terminator]
  }

  method RemoveDocketPageBreaks(text: string) returns (r: string)
    ensures r == DocketFilter(text)
  {
    var lines := Split(text, Terminator);
    var output := [lines[0]];
    var inBreak := false;
    for i := 1 to |lines|
      invariant Scan(output, inBreak) == DocketScan(lines, i)
    {
      if inBreak {
        if IsVersusLine(lines[i - 1]) {
          inBreak := false;
        }
      } else if IsPrintedLine(lines[i]) {
        inBreak := true;
      } else {
        output := output + [lines[i]];
      }
    }
    r := Join(output, Terminator) + [Terminator];
  }

  /**
   * The court-summary filter after the first `n` lines. A printed line
   * opens a region; the region ends at the first line that is not a bold
   * "(Continued)" line while its predecessor is one, and that line is kept,
   * cut after its first box wrap when it is a continuation text box.
   */
  function SummaryScan(lines: seq<string>, n: nat): Scan
    requires 1 <= n <= |lines|
  {
    if n == 1 then Scan([lines[0]], false)
    else SummaryStep(SummaryScan(lines, n - 1), lines[n - 2], lines[n - 1])
  }

  /** One line of the court-summary filter, given the line before it. */
  function SummaryStep(s: Scan, previous: string, line: string): Scan {
    if s.inBreak then
      if IsContinuation(previous) && !IsContinuation(line) then
        Scan(s.kept + [ClosingLine(line)], false)
      else s
    else if IsPrintedLine(line) then Scan(s.kept, true)
    else Scan(s.kept + [line], false)
  }

  /** What is kept of the line that closes a court-summary page break. */
  function ClosingLine(line: string): string {
    if IsContinuationTextbox(line) then
      TextboxHasBoxWrap(line);
      AfterFirst(line, BoxWrap)
    else line
  }

  /** `remove_court_summary_page_breaks`: the kept lines joined, plus one more terminator. */
  function SummaryFilter(text: string): string {
    var lines := Split(text, Terminator);
    Join(SummaryScan(lines, |lines|).kept, Terminator) + [Terminator]
  }

  method RemoveCourtSummaryPageBreaks(text: string) returns (r: string)
    ensures r == SummaryFilter(text)
  {
    var lines := Split(text, Terminator);
    var output := [lines[0]];
    var inBreak := false;
    for i := 1 to |lines|
      invariant Scan(output, inBreak) == SummaryScan(lines, i)
    {
      var line := lines[i];
      if inBreak {
        if IsContinuation(lines[i - 1]) && !IsContinuation(line) {
          inBreak := false;
          if IsContinuationTextbox(line) {
            TextboxHasBoxWrap(line);
            output := output + [AfterFirst(line, BoxWrap)];
          } else {
            output := output + [line];
          }
        }
      } else if IsPrintedLine(line) {
        inBreak := true;
      } else {
        output := output + [line];
      }
    }
    r := Join(output, Terminator) + [Terminator];
  }

  /** `remove_page_breaks`: the filter of the detected document type. */
  method RemovePageBreaks(text: string) returns (r: Result<string, DocumentTypeError>)
    ensures GetDocumentType(text) == Ok(Docket) ==> r == Ok(DocketFilter(text))
    ensures GetDocumentType(text) == Ok(CourtSummary) ==> r == Ok(SummaryFilter(text))
    ensures GetDocumentType(text).Err? ==> r == Err(GetDocumentType(text).error)
  {
    var lines := Split(text, Terminator);
    if |lines| < 2 {
      return Err(NoSecondLine);
    }
    match TypeOfLine(lines[1])
    case Ok(Docket) =>
      var filtered := RemoveDocketPageBreaks(text);
      r := Ok(filtered);
    case Ok(CourtSummary) =>
      var filtered := RemoveCourtSummaryPageBreaks(text);
      r := Ok(filtered);
    case Err(e) =>
      r := Err(e);
  }

  // =====================================================================
  // Properties of the filters

  /** No line after the first opens a page break. */
  predicate NoPrintedLine(lines: seq<string>) {
    forall i :: 1 <= i < |lines| ==> !IsPrintedLine(lines[i])
  }

  /**
   * The docket filter keeps line 0, keeps no more lines than it has seen,
   * and every other line it keeps is one of the lines seen and not a
   * printed line.
   */
  lemma {:induction false} DocketScanKept(lines: seq<string>, n: nat)
    requires 1 <= n <= |lines|
    ensures var s := DocketScan(lines, n);
      && 1 <= |s.kept| <= n && s.kept[0] == lines[0]
      && forall j :: 1 <= j < |s.kept| ==> s.kept[j] in lines[1..n] && !IsPrintedLine(s.kept[j])
  {
    if n > 1 {
      DocketScanKept(lines, n - 1);
      var s := DocketScan(lines, n - 1);
      assert forall j :: 1 <= j < |s.kept| ==> s.kept[j] in lines[1..n - 1] ==> s.kept[j] in lines[1..n];
      assert lines[n - 1] == lines[1..n][n - 2];
    }
  }

  /** Strictly increasing indices, all below `bound`. */
  predicate Increasing(idx: seq<int>, bound: nat) {
    && (forall j :: 0 <= j < |idx| ==> 0 <= idx[j] < bound)
    && (forall j, k :: 0 <= j < k < |idx| ==> idx[j] < idx[k])
  }

  /**
   * `kept` is taken, in order, from the first `n` lines at the indices
   * `idx`: each kept line is the line at its index or, when `cut` allows,
   * what a closing line keeps of it.
   */
  predicate KeptFrom(kept: seq<string>, lines: seq<string>, idx: seq<int>, n: nat, cut: bool) {
    && |idx| == |kept| && n <= |lines| && Increasing(idx, n)
    && forall j :: 0 <= j < |idx| ==>
         kept[j] == lines[idx[j]] || (cut && kept[j] == ClosingLine(lines[idx[j]]))
  }

  lemma KeptFromMore(kept: seq<string>, lines: seq<string>, idx: seq<int>, n: nat, cut: bool)
    requires KeptFrom(kept, lines, idx, n, cut) && n < |lines|
    ensures KeptFrom(kept, lines, idx, n + 1, cut)
  {
  }

  lemma KeptFromNext(kept: seq<string>, lines: seq<string>, idx: seq<int>, n: nat, cut: bool, line: string)
    requires KeptFrom(kept, lines, idx, n, cut) && n < |lines|
    requires line == lines[n] || (cut && line == ClosingLine(lines[n]))
    ensures KeptFrom(kept + [line], lines, idx + [n], n + 1, cut)
  {
    var kept', idx' := kept + [line], idx + [n];
    forall j | 0 <= j < |idx'|
      ensures 0 <= idx'[j] < n + 1
      ensures kept'[j] == lines[idx'[j]] || (cut && kept'[j] == ClosingLine(lines[idx'[j]]))
    {
      if j < |idx| {
        assert idx'[j] == idx[j] && kept'[j] == kept[j];
      }
    }
    forall j, k | 0 <= j < k < |idx'|
      ensures idx'[j] < idx'[k]
    {
      assert idx'[j] == idx[j];
    }
  }

  /**
   * The docket filter keeps lines in their input order, each unchanged
   * and none twice: the kept lines are the first `n` lines at strictly
   * increasing indices.
   */
  lemma {:induction false} DocketScanInOrder(lines: seq<string>, n: nat)
    requires 1 <= n <= |lines|
    ensures exists idx :: KeptFrom(DocketScan(lines, n).kept, lines, idx, n, false)
  {
    if n == 1 {
      assert KeptFrom(DocketScan(lines, 1).kept, lines, [0], 1, false);
    } else {
      DocketScanInOrder(lines, n - 1);
      var s := DocketScan(lines, n - 1);
      var idx :| KeptFrom(s.kept, lines, idx, n - 1, false);
      DocketStepKept(s, lines[n - 2], lines[n - 1]);
      KeptFromStep(s.kept, DocketScan(lines, n).kept, lines, idx, n, false);
    }
  }

  /**
   * The court-summary filter keeps lines in their input order and none
   * twice: each kept line is the line at its index, or what a closing line
   * keeps of it (its text after the first box wrap).
   */
  lemma {:induction false} SummaryScanInOrder(lines: seq<string>, n: nat)
    requires 1 <= n <= |lines|
    ensures exists idx :: KeptFrom(SummaryScan(lines, n).kept, lines, idx, n, true)
  {
    if n == 1 {
      assert KeptFrom(SummaryScan(lines, 1).kept, lines, [0], 1, true);
    } else {
      SummaryScanInOrder(lines, n - 1);
      var s := SummaryScan(lines, n - 1);
      var idx :| KeptFrom(s.kept, lines, idx, n - 1, true);
      SummaryStepKept(s, lines[n - 2], lines[n - 1]);
      KeptFromStep(s.kept, SummaryScan(lines, n).kept, lines, idx, n, true);
    }
  }

  /** A scan step that keeps its lines, or adds the next line (or, with `cut`, its closing part), stays in order. */
  lemma KeptFromStep(before: seq<string>, after: seq<string>, lines: seq<string>, idx: seq<int>, n: nat, cut: bool)
    requires 1 <= n <= |lines| && KeptFrom(before, lines, idx, n - 1, cut)
    requires || after == before
             || (|after| == |before| + 1 && after[..|before|] == before
                 && (after[|before|] == lines[n - 1] || (cut && after[|before|] == ClosingLine(lines[n - 1]))))
    ensures exists idx' :: KeptFrom(after, lines, idx', n, cut)
  {
    if after == before {
      KeptFromMore(before, lines, idx, n - 1, cut);
      assert KeptFrom(after, lines, idx, n, cut);
    } else {
      assert after == before + [after[|before|]];
      KeptFromNext(before, lines, idx, n - 1, cut, after[|before|]);
      assert KeptFrom(after, lines, idx + [n - 1], n, cut);
    }
  }

  /** One docket step keeps what it had, or adds the line. */
  lemma DocketStepKept(s: Scan, previous: string, line: string)
    ensures var after := DocketStep(s, previous, line).kept;
      || after == s.kept
      || (|after| == |s.kept| + 1 && after[..|s.kept|] == s.kept && after[|s.kept|] == line)
  {
  }

  /** One summary step keeps what it had, or adds the line or its closing part. */
  lemma SummaryStepKept(s: Scan, previous: string, line: string)
    ensures var after := SummaryStep(s, previous, line).kept;
      || after == s.kept
      || (|after| == |s.kept| + 1 && after[..|s.kept|] == s.kept
          && (after[|s.kept|] == line || after[|s.kept|] == ClosingLine(line)))
  {
  }

  lemma {:induction false} DocketScanWithoutBreaks(lines: seq<string>, n: nat)
    requires 1 <= n <= |lines| && NoPrintedLine(lines)
    ensures DocketScan(lines, n) == Scan(lines[..n], false)
  {
    if n > 1 {
      DocketScanWithoutBreaks(lines, n - 1);
      assert lines[..n - 1] + [lines[n - 1]] == lines[..n];
    } else {
      assert lines[..1] == [lines[0]];
    }
  }

  /** Text without page breaks comes back whole, with one terminator added. */
  lemma DocketFilterWithoutBreaks(text: string)
    requires NoPrintedLine(Split(text, Terminator))
    ensures DocketFilter(text) == text + [Terminator]
  {
    var lines := Split(text, Terminator);
    DocketScanWithoutBreaks(lines, |lines|);
    assert lines[..|lines|] == lines;
    JoinSplit(text, Terminator);
  }

  /** The lines of a filter's output: the kept lines and one empty line. */
  lemma FilteredLines(kept: seq<string>)
    requires |kept| >= 1 && forall j :: 0 <= j < |kept| ==> Terminator !in kept[j]
    ensures Split(Join(kept, Terminator) + [Terminator], Terminator) == kept + [""]
  {
    SplitTrailingSeparator(Join(kept, Terminator), Terminator);
    SplitJoin(kept, Terminator);
  }

  /** A filter's output, read for its type, is read at the second kept line. */
  lemma FilterOutputType(kept: seq<string>)
    requires |kept| >= 2 && Terminator !in kept[0] && Terminator !in kept[1]
    ensures GetDocumentType(Join(kept, Terminator) + [Terminator]) == TypeOfLine(kept[1])
  {
    var rest := JoinedTail(kept);
    DocumentTypeOfSecondLine(kept[0], kept[1], rest);
  }

  /** What a filter writes after its second kept line and the terminator that follows it. */
  lemma JoinedTail(kept: seq<string>) returns (rest: string)
    requires |kept| >= 2
    ensures Join(kept, Terminator) + [Terminator] == kept[0] + [Terminator] + kept[1] + [Terminator] + rest
  {
    var tail := Join(kept[1..], Terminator) + [Terminator];
    assert Join(kept, Terminator) + [Terminator] == kept[0] + [Terminator] + tail;
    if |kept| == 2 {
      rest := "";
    } else {
      rest := Join(kept[2..], Terminator) + [Terminator];
      assert kept[1..][1..] == kept[2..];
    }
  }

  /** Once past a second line that is not a printed line, the docket filter keeps the first two lines. */
  lemma {:induction false} DocketScanKeepsHead(lines: seq<string>, n: nat)
    requires 2 <= n <= |lines| && !IsPrintedLine(lines[1])
    ensures var kept := DocketScan(lines, n).kept;
      |kept| >= 2 && kept[0] == lines[0] && kept[1] == lines[1]
  {
    if n > 2 {
      DocketScanKeepsHead(lines, n - 1);
    }
  }

  /**
   * The docket filter leaves the document type unchanged: when the text
   * has a second line and that line is not a printed line, the filtered
   * text is read as the same type.
   */
  lemma DocketFilterKeepsType(text: string)
    requires |Split(text, Terminator)| >= 2 && !IsPrintedLine(Split(text, Terminator)[1])
    ensures GetDocumentType(DocketFilter(text)) == GetDocumentType(text)
  {
    var lines := Split(text, Terminator);
    DocketScanKeepsHead(lines, |lines|);
    FilterOutputType(DocketScan(lines, |lines|).kept);
  }

  /** Once past a second line that is not a printed line, the court-summary filter keeps the first two lines. */
  lemma {:induction false} SummaryScanKeepsHead(lines: seq<string>, n: nat)
    requires 2 <= n <= |lines| && !IsPrintedLine(lines[1])
    ensures var kept := SummaryScan(lines, n).kept;
      |kept| >= 2 && kept[0] == lines[0] && kept[1] == lines[1]
  {
    if n > 2 {
      SummaryScanKeepsHead(lines, n - 1);
    }
  }

  /**
   * The court-summary filter leaves the document type unchanged under the
   * same conditions.
   */
  lemma SummaryFilterKeepsType(text: string)
    requires |Split(text, Terminator)| >= 2 && !IsPrintedLine(Split(text, Terminator)[1])
    ensures GetDocumentType(SummaryFilter(text)) == GetDocumentType(text)
  {
    var lines := Split(text, Terminator);
    SummaryScanKeepsHead(lines, |lines|);
    FilterOutputType(SummaryScan(lines, |lines|).kept);
  }

  /**
   * The docket filter is not idempotent: running it on its own output
   * removes nothing more and only adds another terminator.
   */
  lemma DocketFilterTwice(text: string)
    ensures DocketFilter(DocketFilter(text)) == DocketFilter(text) + [Terminator]
  {
    var lines := Split(text, Terminator);
    var kept := DocketScan(lines, |lines|).kept;
    DocketScanKept(lines, |lines|);
    forall j | 0 <= j < |kept|
      ensures Terminator !in kept[j]
    {
      if j > 0 {
        var i :| 0 <= i < |lines[1..]| && lines[1..][i] == kept[j];
        assert kept[j] == lines[i + 1];
      }
    }
    FilteredLines(kept);
    assert !IsPrintedLine("");
    DocketFilterWithoutBreaks(DocketFilter(text));
  }

  /**
   * A docket page break in six lines: after the first line comes the
   * printed line, a header, the versus line, the caption and the next
   * line. The printed line, everything up to the versus line, the versus
   * line and the caption after it are all dropped.
   */
  lemma DocketDropsPageBreak(lines: seq<string>)
    requires |lines| == 6
    requires IsPrintedLine(lines[1]) && !IsVersusLine(lines[2]) && IsVersusLine(lines[3]) && !IsPrintedLine(lines[5])
    ensures DocketScan(lines, 6) == Scan([lines[0], lines[5]], false)
  {
    var open := Scan([lines[0]], true);
    var closed := Scan([lines[0]], false);
    PrintedNotVersus(lines[1]);
    assert DocketScan(lines, 2) == open by { DocketOpensBreak(closed, lines[0], lines[1]); }
    assert DocketScan(lines, 3) == open by { DocketStaysInBreak(open, lines[1], lines[2]); }
    assert DocketScan(lines, 4) == open by { DocketStaysInBreak(open, lines[2], lines[3]); }
    assert DocketScan(lines, 5) == closed by { DocketClosesBreak(open, lines[3], lines[4]); }
    DocketKeptOutsideBreak(closed, lines[4], lines[5]);
  }

  lemma PrintedNotVersus(line: string)
    requires IsPrintedLine(line)
    ensures !IsVersusLine(line)
  {
    FirstCharOfPrefix(line, "Printed:");
    if IsVersusLine(line) {
      FirstCharOfPrefix(line, "v.");
    }
  }

  lemma FirstCharOfPrefix(line: string, prefix: string)
    requires prefix != [] && StartsWith(line, prefix)
    ensures line[0] == prefix[0]
  {
    assert line[..|prefix|][0] == line[0];
  }

  lemma DocketClosesBreak(s: Scan, previous: string, line: string)
    requires s.inBreak && IsVersusLine(previous)
    ensures DocketStep(s, previous, line) == Scan(s.kept, false)
  {
  }

  lemma DocketKeptOutsideBreak(s: Scan, previous: string, line: string)
    requires !s.inBreak && !IsPrintedLine(line)
    ensures DocketStep(s, previous, line) == Scan(s.kept + [line], false)
  {
  }

  lemma DocketOpensBreak(s: Scan, previous: string, line: string)
    requires !s.inBreak && IsPrintedLine(line)
    ensures DocketStep(s, previous, line) == Scan(s.kept, true)
  {
  }

  lemma DocketStaysInBreak(s: Scan, previous: string, line: string)
    requires s.inBreak && !IsVersusLine(previous)
    ensures DocketStep(s, previous, line) == s
  {
  }

  lemma {:induction false} SummaryScanWithoutBreaks(lines: seq<string>, n: nat)
    requires 1 <= n <= |lines| && NoPrintedLine(lines)
    ensures SummaryScan(lines, n) == Scan(lines[..n], false)
  {
    if n > 1 {
      var before := SummaryScan(lines, n - 1);
      assert SummaryScan(lines, n) == SummaryStep(before, lines[n - 2], lines[n - 1]);
      SummaryScanWithoutBreaks(lines, n - 1);
      assert !IsPrintedLine(lines[n - 1]);
      KeptOutsideBreak(before, lines[n - 2], lines[n - 1]);
      assert lines[..n - 1] + [lines[n - 1]] == lines[..n];
    } else {
      assert lines[..1] == [lines[0]];
    }
  }

  /** Outside a page break, a line that is not a printed line is kept. */
  lemma KeptOutsideBreak(s: Scan, previous: string, line: string)
    requires !s.inBreak && !IsPrintedLine(line)
    ensures SummaryStep(s, previous, line) == Scan(s.kept + [line], false)
  {
  }

  /** Text without page breaks comes back whole, with one terminator added. */
  lemma SummaryFilterWithoutBreaks(text: string)
    requires NoPrintedLine(Split(text, Terminator))
    ensures SummaryFilter(text) == text + [Terminator]
  {
    var lines := Split(text, Terminator);
    SummaryScanWithoutBreaks(lines, |lines|);
    assert lines[..|lines|] == lines;
    JoinSplit(text, Terminator);
  }

  /** On text without page breaks, a second run of the filter only adds a terminator. */
  lemma SummaryFilterTwice(text: string)
    requires NoPrintedLine(Split(text, Terminator))
    ensures SummaryFilter(SummaryFilter(text)) == SummaryFilter(text) + [Terminator]
  {
    SummaryFilterWithoutBreaks(text);
    SplitTrailingSeparator(text, Terminator);
    assert !IsPrintedLine("");
    SummaryFilterWithoutBreaks(text + [Terminator]);
  }

  /**
   * A court-summary page break: the printed line (line 1), the header
   * (line 2) and the last bold "(Continued)" line (line 3) are dropped; the
   * line after that (line 4) is kept, without the "(Continued)" text box it
   * shares a line with, and so is the next one.
   */
  lemma SummaryDropsPageBreak(lines: seq<string>)
    requires |lines| == 6
    requires IsPrintedLine(lines[1]) && !IsContinuation(lines[1]) && !IsContinuation(lines[2])
    requires IsContinuation(lines[3]) && !IsContinuation(lines[4]) && !IsPrintedLine(lines[5])
    ensures SummaryScan(lines, 6) == Scan([lines[0], ClosingLine(lines[4]), lines[5]], false)
    ensures IsContinuationTextbox(lines[4]) ==> BoxWrap in lines[4] && ClosingLine(lines[4]) == AfterFirst(lines[4], BoxWrap)
    ensures !IsContinuationTextbox(lines[4]) ==> ClosingLine(lines[4]) == lines[4]
  {
    var open := Scan([lines[0]], true);
    assert SummaryScan(lines, 2) == open by {
      OpensBreak(Scan([lines[0]], false), lines[0], lines[1]);
    }
    assert SummaryScan(lines, 3) == open by {
      StaysInBreak(open, lines[1], lines[2]);
    }
    assert SummaryScan(lines, 4) == open by {
      StaysInBreak(open, lines[2], lines[3]);
    }
    var closing := ClosingLine(lines[4]);
    var closed := Scan([lines[0], closing], false);
    assert SummaryScan(lines, 5) == closed by {
      assert SummaryScan(lines, 5) == SummaryStep(open, lines[3], lines[4]);
      ClosesBreak(open, lines[3], lines[4]);
      assert [lines[0]] + [closing] == [lines[0], closing];
    }
    assert SummaryScan(lines, 6) == SummaryStep(closed, lines[4], lines[5]);
    KeptOutsideBreak(closed, lines[4], lines[5]);
    assert [lines[0], closing] + [lines[5]] == [lines[0], closing, lines[5]];
    ClosingLineCut(lines[4]);
  }

  /** The closing line is cut after its first box wrap exactly when it is a continuation text box. */
  lemma ClosingLineCut(closing: string)
    ensures IsContinuationTextbox(closing) ==> BoxWrap in closing && ClosingLine(closing) == AfterFirst(closing, BoxWrap)
    ensures !IsContinuationTextbox(closing) ==> ClosingLine(closing) == closing
  {
    if IsContinuationTextbox(closing) {
      TextboxHasBoxWrap(closing);
    }
  }

  /** Outside a page break, a printed line opens one and is dropped. */
  lemma OpensBreak(s: Scan, previous: string, line: string)
    requires !s.inBreak && IsPrintedLine(line)
    ensures SummaryStep(s, previous, line) == Scan(s.kept, true)
  {
  }

  /** Inside a page break, a line is dropped unless it follows the last "(Continued)" line. */
  lemma StaysInBreak(s: Scan, previous: string, line: string)
    requires s.inBreak && !IsContinuation(previous)
    ensures SummaryStep(s, previous, line) == s
  {
  }

  /** The first line after the last "(Continued)" line ends the page break and is kept. */
  lemma ClosesBreak(s: Scan, previous: string, line: string)
    requires s.inBreak && IsContinuation(previous) && !IsContinuation(line)
    ensures SummaryStep(s, previous, line) == Scan(s.kept + [ClosingLine(line)], false)
  {
  }
}
