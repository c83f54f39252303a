# PA court-document parser, modelled in Dafny

This project models the core of a parser for Pennsylvania court dockets and
court summaries. The parser reads these documents as PDFs produced by
Crystal Reports. It has three layers:

- **Text extraction** (`extraction.py`, `font.py`). A page's content-stream
  operators (`Tf`, `q`, `Q`, `ET`, `Td`, `TJ`, `Tj`) drive a small state
  machine. The machine has:
  - the current text state (font and size) and a stack of saved states;
  - a working text segment (content, origin, x and y carry);
  - the displacement of the text shown since the last move;
  - the list of finished segments.

  Each finished segment is serialised as its content, then `[x,y,font]` with
  two-decimal coordinates and `bold` or `normal`, then a newline. Six reserved
  characters (`\n`, `_`, `|`, `[`, `]`, `^`) mark line ends, tabs,
  "comes before", properties and box wraps. Page set-up as written compares
  each whole mapped text with these one-character strings, so a font mapping
  a code to "a[" passes (see "## Findings"). The model uses the corrected
  check, which rejects a font when any character of its mapped texts is
  reserved.
- **Text clean-up** (`parsing.py`). The document type is read from the
  second line. Two line filters remove page breaks: one for dockets, one for
  court summaries.
- **Tree reduction** (`parsing.py`). The visitors of the two grammars turn
  the values of a node's children into dictionaries:
  - leaves: strings, dates, money amounts;
  - merging of sections;
  - county and category tagging of dockets;
  - alias lists;
  - joining of charge descriptions;
  - the disposition section.

  `flatten` sits underneath all of them.

Files and modules:

| file | module | what it holds |
|---|---|---|
| wrappers.dfy | Wrappers | `Option`, `Result` |
| markers.dfy | Markers | the six reserved characters |
| text.dfy | Text | Python `split`, `join`, `strip`, `lower`, `replace`, `in` on strings |
| numerals.dfy | Numerals | Python `int(...)`, `float(...)` and `str(n)` on decimal text |
| fixed.dfy | Fixed | `round(x, 2)` and the `06.2f` format |
| font.dfy | Font | `PdfFontWrapper`: glyph decoding and the width table |
| interpreter.dfy | Interpreter | the extraction state machine as pure functions, and its properties |
| extraction.dfy | Extraction | `TextSegment` and the page extractor as classes proved against `Interpreter`; page set-up; `segment_to_str` |
| pagebreaks.dfy | PageBreaks | `get_document_type` and the two page-break filters |
| values.dfy | Values | the values visitors return, Python `in` and `dict.update` on them, `flatten` |
| leaves.dfy | Leaves | string, alias, date and money leaves |
| reducers.dfy | Reducers | the structural `visit_*` methods and the rule-name dispatch |

The imperative parts are methods whose `ensures` tie them to a
specification function. These are:
- the extractor methods;
- `get_content_and_width` and `get_widths_dict`;
- the filters;
- the reducers' loops over flattened children.

The lemmas then state what the source promises about those functions.

Three behaviours of the filters follow from the code and are easy to miss:
- **Versus line.** The docket filter drops the "v. …" line that ends a page break, and the line after it. The region ends only on the line after the versus line, because the test at parsing.py:310-313 looks at the previous line (`PageBreaks.DocketDropsPageBreak`).
- **Idempotence.** Neither filter is idempotent. Each appends one more terminator after joining its lines, at parsing.py:321 and parsing.py:362 (`PageBreaks.DocketFilterTwice`, `PageBreaks.SummaryFilterTwice`).
- **Document type.** Each filter keeps the first line and, when the second line is not a printed line, the second line too, so the filtered text reads as the same document type (`PageBreaks.DocketFilterKeepsType`, `PageBreaks.SummaryFilterKeepsType`). A printed second line would open a page break and be dropped.

## Model

| member | source | states |
|---|---|---|
| Markers.SpecialCharacters | extraction.py:85-88 | the reserved characters are six distinct characters: terminator, tab, comes-before, properties open and close, box wrap |
| Font.GetContentAndWidth | font.py:40-47 | the content is the in-order concatenation of the texts of the bytes, the width the sum of their widths; the empty byte string gives `("", 0)`; every byte must be in both maps |
| Font.DecodeConcat | font.py:44-46 | decoding `a + b` gives the contents concatenated and the widths summed |
| Font.DecodedAvoids | font.py:44-45 | a font none of whose texts holds a character of a set decodes no byte string to text holding one |
| Font.GetWidthsDict | font.py:32-38 | the table has exactly the keys `FirstChar..LastChar`, and key `i` maps to `Widths[i - FirstChar]` |
| Font.Wrap | font.py:13-18 | the wrapper keeps the font's unicode map and gets the width table of its code range |
| Interpreter.TerminateEffect | extraction.py:200-211 | termination emits a segment exactly when the content is non-empty; it drops exactly one trailing box wrap and labels the segment with the current font's output name; it always leaves the segment reset and the displacement 0; it fails only for a non-empty segment in a font the page does not have |
| Interpreter.FontChangeEndsSegment | extraction.py:223-228 | `Tf` terminates the segment under the old font, then sets the text state to the operands; the stack is unchanged |
| Interpreter.MoveResetsDisplacement | extraction.py:241-286 | every `Td` leaves the displacement at 0, and only a vertical move of at least the y tolerance emits a segment |
| Interpreter.MoveKeepsText | extraction.py:241-286 | no `Td` loses text: either the finished segments are unchanged and the old content is a prefix of the new, or the content becomes exactly one new segment (one trailing box wrap dropped, if it ends with one) and the working segment starts again empty |
| Interpreter.MoveBoxWrap | extraction.py:244-250 | case 1: `dy < 0` and `abs(dx + x_carry) < x_tol` appends a box wrap, zeroes the x carry, adds `dy` to the y carry and does not terminate |
| Interpreter.MoveBackToLine | extraction.py:251-259 | case 2: `dy > 0` and `abs(dy + y_carry) < y_tol` zeroes both carries and appends comes-before when `dx < 0`, else a tab |
| Interpreter.MoveNewLine | extraction.py:260-263 | case 3: otherwise `abs(dy) >= y_tol` is exactly a termination |
| Interpreter.MoveComesBefore | extraction.py:264-268 | case 4: a small vertical move with `dx < 0` after some content appends comes-before |
| Interpreter.MoveRight | extraction.py:269-285 | case 5: with `dx > 0` after some content, a tab is appended iff `dx - displacement > x_tol * size`; spacing in `[-0.1, x_tol * size]` adds `dx` to the x carry; spacing below `-0.1` changes nothing but the displacement |
| Interpreter.ShowItemsKeepsFontAndStack | extraction.py:288-301 | showing a `TJ` array never changes the text state, the stack, the finished segments, the origin or the carries, and only extends the content |
| Interpreter.ShowItemsConcat | extraction.py:291-301 | a `TJ` array split in two has the effect of its first part followed by its second |
| Interpreter.ShowIsSingleSpacedShow | extraction.py:302-307 | `Tj` of a byte string is `TJ` of the one-element array holding it |
| Interpreter.AdjacentGlyphsMerge | extraction.py:291-299 | two adjacent byte strings of a `TJ` array act as their concatenation: texts appended in order, widths summed |
| Interpreter.OriginFrozen | extraction.py:218-221 | the first `Tj`/`TJ` of a segment sets its origin; afterwards every operator keeps the origin or resets the segment |
| Interpreter.StepStack | extraction.py:229-237 | `q` pushes the current text state; `Q` succeeds only on a non-empty stack, pops its top state and makes it current; every other operator leaves the stack alone |
| Interpreter.RunConcat | extraction.py:321-343 | running two operator lists is running the first and then the second from its state; the first error ends the page |
| Interpreter.RunKeepsStackBottom | extraction.py:229-237 | operators that never pop below the bottom `n` saved states keep those states and change the stack height by their push depth |
| Interpreter.SaveRestoreRoundTrip | extraction.py:229-237 | `q`, balanced operators, `Q` restores the font and size in force before `q`, and the stack as it was |
| Extraction.TextSegment.constructor | extraction.py:17-32 | a new segment has empty content, no origin, zero carries and no font name |
| Extraction.TextSegment.Reset | extraction.py:34-35 | `reset` returns the segment to the newly constructed one |
| Extraction.PageExtractor.constructor | extraction.py:185-198 | the extractor starts with text state `('', 0)`, an empty stack, a fresh segment, displacement 0 and no segments |
| Extraction.PageExtractor.TerminateSegment | extraction.py:200-211 | the new state of segment, displacement and output list is the one `Interpreter.Terminate` computes, or the error it raises |
| Extraction.PageExtractor.MoveTextPosition | extraction.py:241-286 | the in-place `Td` handler leaves the state the five-case classifier `Interpreter.Reposition` computes |
| Extraction.PageExtractor.ShowBytes | extraction.py:302-307 | the bytes' text is appended in place and their width times size / 1000 added to the displacement, as `Interpreter.ShowGlyphs` states; an unknown font or byte raises |
| Extraction.PageExtractor.ShowArray | extraction.py:288-301 | the loop over a `TJ` array leaves the state `Interpreter.ShowItems` computes: strings shown, each adjustment times size / 1000 subtracted |
| Extraction.PageExtractor.Visit | extraction.py:213-319 | one operator applied in place leaves exactly the state `Interpreter.Step` computes (origin first, then the operator's case; unlisted operators change nothing) |
| Extraction.ReservedAsWritten | extraction.py:146-150 | the check as written: a unicode-map text is refused only when it is itself one of the reserved one-character strings, so a refused text always holds a reserved character |
| Extraction.FindReserved | extraction.py:146-150 | the loop finds nothing iff no text of the unicode map holds a reserved character, else it returns one such text of the map |
| Extraction.SetUpPage | extraction.py:140-155 | set-up succeeds iff every font's `/Widths` covers its code range and no unicode text holds a reserved character; on success every font is wrapped, and its output name is `bold` iff its lower-cased `/BaseFont` contains "bold", else `normal`; each error names a font that has that defect |
| Extraction.WrapFonts | extraction.py:140-141 | the wrapping loop succeeds iff every font's `/Widths` covers its code range; on success every font is wrapped; a failure names a font whose `/Widths` is too short |
| Extraction.NameFonts | extraction.py:146-155 | the checking loop succeeds iff no unicode text of any font holds a reserved character; on success each font's output name follows its `/BaseFont`; a failure names a font and one of its texts that holds a reserved character |
| Extraction.SegmentToStr | extraction.py:352-361 | serialising fails (`TypeError`) exactly when the segment has no origin |
| Extraction.SegmentsText | extraction.py:349-350 | the page text fails exactly when some segment has no origin |
| Extraction.ExtractText | extraction.py:173-350 | the loop over the operators ends in the state `Interpreter.Run` computes, stops at the first error, and returns the segments serialised in order |
| Extraction.JoinSegments | extraction.py:349-350 | the serialised segments are joined in order; the join fails exactly when some segment has no origin |
| Extraction.SegmentLineBody | extraction.py:352-361 | the line of a clean segment ends with the terminator and holds no other |
| Extraction.SegmentsTextLines | extraction.py:349-350 | the joined lines split at the terminator into one piece per segment, each that segment's line without its terminator, and a final empty piece |
| Extraction.PageLines | tests/test_extraction.py:39-42 | the text of a page that set up cleanly, split at the terminator, is one line per extracted segment followed by an empty piece, so it ends with the terminator when at least one segment is extracted (with none it is empty) |
| Extraction.SegmentLineRoundTrip | extraction.py:352-361 | a segment with an origin and clean content and font name reads back as its content, its two formatted coordinates and its font name |
| Extraction.SegmentLineSplitsInTwo | tests/test_extraction.py:39-50 | splitting a clean serialised segment at `[` gives exactly two pieces; the first is the content, which holds no `]` |
| Extraction.SetUpCleanConfig | extraction.py:146-155 | fonts accepted by set-up decode no structural character (`[`, `]`, newline), and no output name holds one or a comma |
| Extraction.TerminateClean | extraction.py:200-211 | termination keeps the content and every finished segment free of structural characters |
| Extraction.ShowGlyphsClean | extraction.py:302-307 | showing glyphs of a clean font adds no structural character to the content |
| Extraction.ShowItemsClean | extraction.py:288-301 | a `TJ` array of a clean font keeps the state clean |
| Extraction.RepositionClean | extraction.py:241-286 | a move inserts only box wraps, tabs and comes-before markers, so the content and the finished segments stay free of structural characters |
| Extraction.StepClean | extraction.py:213-319 | no operator brings a structural character into a clean page's segments |
| Extraction.RunClean | extraction.py:213-319 | a whole operator stream keeps a clean page's state clean |
| Extraction.ExtractedLinesReadBack | extraction.py:349-361 | on a page that set up cleanly, every extracted segment with an origin serialises to a line that reads back as its content, coordinates and font name |
| Extraction.ReservedAsWrittenMissesEmbedded | extraction.py:146-150 | the check as written accepts a font mapping a byte to "a["; that byte decodes to text holding `[`, and the segment reads back as "a" |
| Extraction.LoneBoxWrapLosesOrigin | extraction.py:244-250 | a box wrap before any glyph leaves a segment with no origin; termination outputs it emptied, and serialising the page then fails |
| Fixed.RoundHalfEven | extraction.py:355 | `round(x)` is within one half of `x`, and a tie goes to the even integer |
| Fixed.FormatFixed2 | extraction.py:355-357 | the `06.2f` text has at least six characters, each a digit, the point or a minus sign |
| Fixed.FormatFixed2Shape | extraction.py:355-357 | a coordinate that rounds into `[0, 999.99]` prints as three digits, a point and two digits, denoting the rounded value in hundredths |
| Text.IndexOf | parsing.py:352 | the index of the first occurrence of a character, or the length when there is none |
| Text.Split | parsing.py:286 | `split` with a one-character separator gives at least one piece, and no piece holds the separator |
| Text.JoinSplit | parsing.py:298 | joining the pieces of a split gives back the text |
| Text.SplitJoin | parsing.py:321 | splitting a join of separator-free pieces gives back the pieces |
| Text.Strip | parsing.py:65 | `strip` is no longer than the text and neither starts nor ends with white space |
| Text.StripPiece | parsing.py:65 | `strip` is a piece of the text, and everything cut off around it is white space |
| Text.StripUnchanged | parsing.py:65 | text that starts and ends without white space is not changed by `strip` |
| Text.StripIdempotent | parsing.py:65 | stripping twice is stripping once |
| Text.Lower | parsing.py:287 | `lower` keeps the length and lower-cases each ASCII letter |
| Text.RemoveChar | parsing.py:66 | `replace(c, '')` leaves no `c` and no new character |
| Text.RemoveAbsentChar | parsing.py:209 | removing a character the text does not hold changes nothing |
| Text.RemoveCharAppend | parsing.py:66 | removing a character distributes over concatenation |
| Numerals.IntRoundTrip | parsing.py:196 | `int(str(n)) == n` for every integer |
| Numerals.ParseIntZeroPadded | parsing.py:196 | `int` accepts leading zeros: zeros followed by the numeral of `n` read as `n` |
| Numerals.ParseIntSigned | parsing.py:196 | `int` of an optional sign and digits is the digits' value, negated after `-` |
| Numerals.ParseDecimalSigned | parsing.py:212-214 | `float` of an optional sign and unsigned decimal text is that decimal, negated after `-` |
| Numerals.ParseDecimalNumeral | parsing.py:212-214 | unsigned decimal text and its `-` form read as the value and its negation |
| Numerals.DecimalHundredths | parsing.py:212 | digits, a point and two digits read as the whole part plus hundredths |
| PageBreaks.DocumentTypeOfSecondLine | parsing.py:282-291 | the type is decided by the second line alone; "docket" is looked for before "court summary"; text without a second line fails |
| PageBreaks.TextboxHasBoxWrap | parsing.py:350-352 | a line matching the continuation-textbox pattern holds a box wrap, so the text after it is defined |
| PageBreaks.RemoveDocketPageBreaks | parsing.py:294-321 | the loop with the `in_page_break` flag returns the docket filter of the text |
| PageBreaks.RemoveCourtSummaryPageBreaks | parsing.py:324-362 | the loop with the `in_page_break` flag returns the court-summary filter of the text |
| PageBreaks.RemovePageBreaks | parsing.py:365-371 | the filter of the detected type is applied; the error of type detection is passed on |
| PageBreaks.DocketScanKept | parsing.py:298-319 | line 0 is always kept; the kept lines are no more than those seen, and every later kept line is a line seen that is not a printed line |
| PageBreaks.DocketScanInOrder | parsing.py:299-319 | the docket filter keeps lines in input order, each unchanged and none twice: the kept lines are the lines at some strictly increasing indices |
| PageBreaks.DocketScanWithoutBreaks | parsing.py:310-319 | with no printed line, every line is kept and no region is open |
| PageBreaks.DocketFilterWithoutBreaks | parsing.py:298-321 | text without page breaks comes back whole, plus one terminator |
| PageBreaks.FilteredLines | parsing.py:321 | the lines of a filter's output are the kept lines and one empty line |
| PageBreaks.FilterOutputType | parsing.py:282-291 | a filter's output is read for its type at its second kept line |
| PageBreaks.DocketScanKeepsHead | parsing.py:299-319 | when the second line is not a printed line, the docket filter keeps the first two lines as its first two |
| PageBreaks.DocketFilterKeepsType | parsing.py:294-321 | on text with a second line that is not a printed line, the docket-filtered text is read as the same document type |
| PageBreaks.SummaryScanKeepsHead | parsing.py:327-360 | when the second line is not a printed line, the court-summary filter keeps the first two lines as its first two |
| PageBreaks.SummaryFilterKeepsType | parsing.py:324-362 | on text with a second line that is not a printed line, the court-summary-filtered text is read as the same document type |
| PageBreaks.DocketFilterTwice | parsing.py:321 | the docket filter run on its own output drops nothing more and adds one more terminator, so it is not idempotent |
| PageBreaks.DocketDropsPageBreak | parsing.py:310-319 | in a docket page break, the printed line, the header, the versus line and the line after it are all dropped; the next line is kept |
| PageBreaks.SummaryScanWithoutBreaks | parsing.py:343-360 | with no printed line, every line is kept and no region is open |
| PageBreaks.SummaryScanInOrder | parsing.py:327-360 | the court-summary filter keeps lines in input order and none twice: each kept line is the line at a strictly increasing index, or `ClosingLine` of that line (its text after the first box wrap when it is a continuation text box) |
| PageBreaks.KeptOutsideBreak | parsing.py:356-360 | outside a page break, a line that is not a printed line is kept unchanged |
| PageBreaks.SummaryFilterWithoutBreaks | parsing.py:327-362 | text without page breaks comes back whole, plus one terminator |
| PageBreaks.SummaryFilterTwice | parsing.py:362 | on text without page breaks, a second run of the court-summary filter only adds a terminator |
| PageBreaks.SummaryDropsPageBreak | parsing.py:343-360 | in a court-summary page break, the printed line, the header and the last bold "(Continued)" line are dropped; the closing line is kept, cut after its first box wrap exactly when it is a continuation text box |
| Values.Flatten | parsing.py:374-389 | `flatten` yields only atoms: no list and no node |
| Values.FlattenAppend | parsing.py:382-389 | flattening distributes over concatenation |
| Values.FlattenAtoms | parsing.py:386-387 | a list of atoms is unchanged |
| Values.FlattenIdempotent | parsing.py:374-389 | flattening twice is flattening once |
| Values.FlattenNested | parsing.py:388-389 | a nested list flattens to the flattening of its items |
| Values.FlattenFlatExamples | tests/test_parsing.py:96-100 | `[]`, `[1]` and `[1, 2, 3]` are left unchanged |
| Values.FlattenNestedExamples | tests/test_parsing.py:102-105 | `[[[]]]` flattens to `[]` and `[[[["hello"]]]]` to `["hello"]` |
| Values.FlattenMixedExample | tests/test_parsing.py:107-110 | `[[[1], [2, 3]], 4, [[[5], 6], 7], 8]` flattens to `[1, ..., 8]` |
| Values.In | parsing.py:95 | `key in v` raises `TypeError` exactly for a date or a number, and on a dictionary tests its keys |
| Values.Update | parsing.py:98 | `update` accepts exactly a dictionary or the empty string; a dictionary's entries override, the empty string changes nothing |
| Leaves.SummaryString | parsing.py:64-68 | a court-summary string leaf holds no box wrap |
| Leaves.SummaryStringJoinsBoxes | parsing.py:64-68 | a value split over two text boxes comes back as the two pieces run together |
| Leaves.SummaryStringWithoutBoxes | parsing.py:179-181 | without box wraps, the court-summary leaf is the docket leaf: the stripped text |
| Leaves.SummaryAliases | parsing.py:101-106 | no court-summary alias holds a box wrap |
| Leaves.AliasesOfPieces | parsing.py:101-106 | the aliases are the pieces between box wraps, the last dropped exactly when it mentions "WARRANT" |
| Leaves.SummaryAliasesOfNames | parsing.py:101-106 | names joined by box wraps come back as the names, with or without a trailing "WARRANT" piece |
| Leaves.ParseDate | parsing.py:192-196 | a parsed date exists in the calendar; every failure is `ValueError` or `OverflowError` |
| Leaves.MakeDate | parsing.py:196 | `date(year, month, day)` succeeds exactly on a date that exists, and gives that date; it raises `OverflowError` exactly when a field does not fit a 32-bit C `int`, and `ValueError` otherwise |
| Leaves.ParseFormattedDate | parsing.py:79-83 | `MM/DD/YYYY` reads back as the date it names when that date exists; it raises `OverflowError` when the year does not fit a 32-bit C `int`, and `ValueError` for any other date that does not exist |
| Leaves.LeapDay | parsing.py:196 | February 29 is accepted in 2020 and refused in 2021 and 1900 |
| Leaves.YearOverflow | parsing.py:196 | `01/01/99999999999` raises `OverflowError`, not `ValueError` |
| Leaves.FloatOf | parsing.py:212 | `float` fails only with `ValueError`, and succeeds exactly on decimal text |
| Leaves.MoneyOf | parsing.py:210-217 | empty text raises `IndexError`; a first character other than `$` or `(` raises `ParseError` |
| Leaves.Negated | parsing.py:214 | negation keeps success and failure and negates the amount |
| Leaves.MoneyOfPlain | parsing.py:208-209 | text that needs no stripping and has no comma is read as it is |
| Leaves.MoneyDollars | parsing.py:211-212 | `$x` is the float of `x` |
| Leaves.MoneyParentheses | parsing.py:213-214 | `(` then any character, `x`, `)` is the negated float of `x`; the second character is not checked |
| Leaves.MoneyParenthesesNegate | parsing.py:211-214 | `($x)` is the negation of `$x`, and the two fail together |
| Leaves.MoneySigns | parsing.py:207-218 | for an amount `v`, `$x` reads as `v` and `($x)` as `-v` |
| Leaves.CentsFloat | parsing.py:212 | dollars, a point and two-digit cents read as dollars plus hundredths |
| Reducers.MergedKeys | parsing.py:127-132 | a key is in the merge exactly when some dictionary child has it |
| Reducers.MergedLastWins | parsing.py:127-132 | each key holds the value of the last dictionary child that has it |
| Reducers.MergedAppend | parsing.py:227-232 | merging a concatenation merges the second part over the first |
| Reducers.MergeDicts | parsing.py:126-132 | the loop of `visit_docket_section`, `visit_charge_segment` and `visit_whole_docket` returns the dictionary children of the flattened children merged in order |
| Reducers.DictsIn | parsing.py:134-140 | the selection holds only dictionaries and no more items than the input |
| Reducers.DictsInAppend | parsing.py:136-139 | selecting dictionaries keeps their order |
| Reducers.DictsInAllDicts | parsing.py:137-139 | children that are all dictionaries are all kept |
| Reducers.MergedDictsIn | parsing.py:145-146 | merging looks only at the dictionary children |
| Reducers.ChargesSection | parsing.py:134-140 | the loop returns exactly the dictionaries among the flattened children, in order |
| Reducers.GenericVisit | parsing.py:88-90 | `visited_children or node` is the node exactly when there are no children, and flattens like the children |
| Reducers.SummaryOfAtoms | parsing.py:92-99 | with no child holding its own `dockets`: the dockets are collected in order under `dockets` and every other dictionary is merged; it raises `TypeError` exactly when a date or a number is among the children |
| Reducers.WholeSummary | parsing.py:92-99 | the loop over the flattened children computes the summary fold |
| Reducers.CategoryName | parsing.py:109 | the category holds no `[` and is stripped |
| Reducers.CategoryOfHeading | parsing.py:109 | a stripped heading followed by its bracketed properties is read back as the heading |
| Reducers.TagFoldOfAtoms | parsing.py:108-113 | every child keeps its place; each docket dictionary gets the category and nothing else changes; `TypeError` exactly when some child cannot be tagged |
| Reducers.CategorySection | parsing.py:108-113 | the loop tags the flattened children with the category read from the node's text |
| Reducers.CountyOut | parsing.py:124 | the section's result is the handled children, or the error raised |
| Reducers.CountyFoldOfDicts | parsing.py:115-124 | over dictionaries: each child loses its `county`, and each docket gets the latest county read at or before it; `RuntimeError` exactly when some docket has no (or an empty) county before it |
| Reducers.CountyStepOfDict | parsing.py:118-123 | one dictionary child: its county, if any, becomes the latest; the child is hoisted with it |
| Reducers.CountySection | parsing.py:115-124 | the loop over the flattened children computes the county fold |
| Reducers.AliasFoldOfAtoms | parsing.py:234-239 | the aliases are the `alias` values of the dictionaries, in order; `TypeError` exactly when some child's alias cannot be read |
| Reducers.AliasesOfLeaves | parsing.py:234-239 | alias leaves come back as the aliases, in order |
| Reducers.DocketAliases | parsing.py:234-239 | the loop over the flattened children computes the alias fold |
| Reducers.Without | parsing.py:260 | taking a key out keeps every child in its place |
| Reducers.CollectFoldOfAtoms | parsing.py:258-261 | the loop pops every part in order and merges what remains of the dictionaries; it raises exactly when a child is neither a dictionary nor the empty string |
| Reducers.CollectParts | parsing.py:258-261 | the pop-and-update loop computes the collect fold |
| Reducers.Description | parsing.py:263 | `' '.join(parts).strip()` succeeds exactly when every part is a string; otherwise `TypeError`; the result neither starts nor ends with white space |
| Reducers.DescriptionOfWords | parsing.py:263 | words are joined by single spaces, and splitting at spaces gives them back |
| Reducers.DescriptionOfNothing | parsing.py:263 | no parts give the empty description |
| Reducers.DescribedOfWords | parsing.py:255-277 | over dictionaries whose parts are words: every child merged, the parts taken out, and the words joined under the field |
| Reducers.DescribedOfDicts | parsing.py:255-277 | over dictionaries: fails exactly when a part is not a string, with `TypeError` |
| Reducers.DictResult | parsing.py:277 | a dictionary result as a value, the error passed on |
| Reducers.Describe | parsing.py:255-263 | the loop over the flattened children and the join compute the described dictionary |
| Reducers.ChargeInfo | parsing.py:255-264 | the description parts joined into `charge_description`, everything under `charge_info`, or the error raised |
| Reducers.DispositionGradeStatute | parsing.py:266-277 | the offense-disposition parts joined into `offense_disposition`, or the error raised |
| Reducers.Chars | parsing.py:247 | iterating a string yields its one-character strings, in order |
| Reducers.EventsFoldEach | parsing.py:244-252 | one case event per event, in order; the section succeeds exactly when every event does |
| Reducers.CaseEventOfDicts | parsing.py:245-251 | a case event of dictionaries merges them without `charge_info` and lists their `charge_info` values under `charges` |
| Reducers.CaseEventOfString | parsing.py:247-250 | a string event is accepted only when empty, as an event with no charges |
| Reducers.SectionDispositionOfList | parsing.py:241-253 | anything but two children raises `ValueError`; with a list of events, the result is their case events in order |
| Reducers.SectionDisposition | parsing.py:241-253 | the nested loops compute the section's case events |
| Reducers.DateLeaf | parsing.py:192-196 | `{rule: date}` exactly when the date reads, else the error reading it raised (`ValueError` or `OverflowError`) |
| Reducers.MoneyLeaf | parsing.py:207-218 | `{rule: amount}` exactly when the amount reads, else its error |
| Reducers.SummaryLeafRules | parsing.py:47-56 | the court-summary leaf names are visited as string and date leaves |
| Reducers.SummaryStructureRules | parsing.py:92-124 | `whole_summary`, `aliases`, `category_section` and `county_section` get their own methods |
| Reducers.SummarySectionRules | parsing.py:126-147 | `docket_section` and `charge_segment` merge; `charges_section` lists its dictionaries |
| Reducers.SummaryGenericRules | parsing.py:88-90 | exactly the names the court-summary visitor has no method for get the generic visit |
| Reducers.VisitSummaryNode | parsing.py:46-147 | a court-summary node is visited by the leaf or reducer its rule names, or generically |
| Reducers.DocketLeafRules | parsing.py:157-171 | the docket leaf names are visited as string, date and money leaves |
| Reducers.DocketStructureRules | parsing.py:227-253 | `whole_docket`, `aliases` and `section_disposition` get their own methods |
| Reducers.DocketDescriptionRules | parsing.py:255-277 | `charge_info` and `disposition_grade_statute` join description parts |
| Reducers.DocketGenericRules | parsing.py:223-225 | exactly the names the docket visitor has no method for get the generic visit |
| Reducers.VisitDocketNode | parsing.py:151-277 | a docket node is visited by the leaf or reducer its rule names, or generically |

## Left out

- Reading the PDF, and the library call that feeds the operators to the visitor (extraction.py:60-67, 341-343): the operator stream is an input list of `Op`.
- The matrix product `mult` (extraction.py:157-171): each showing operator carries the device-space point of its origin.
- Logging, the Crystal Reports warning, the `_debug_*` helpers and `debug_log_operations` (extraction.py:62-65, 97-120, 323-347): diagnostics only. The "possibly overlapping text" branch keeps its effect, which is to change nothing but the displacement.
- `get_unicode_map` and the `/Subtype` warning (font.py:13-30): pypdf's `parse_to_unicode` is not part of this model, so the unicode map is given.
- Page concatenation by `DocketReader.extract_text` (extraction.py:78-83): a page is modelled alone.
- `generate_content_regex`, `get_grammar_from_file`, the grammars, `Grammar.parse`, `parse_extracted_text` and `parse_pdf` (parsing.py:392-455): parsimonious is not part of this model. `NodeVisitor` dispatch is modelled as a rule name picking a reducer, which gets the node's text and its children's values.
- `VisitationError` wrapping: a reducer's exception is returned as the `Raised` it would be.
- The regular-expression engine: the printed, versus and continuation patterns are predicates that state each pattern's shape directly, except for the digit class (next line).
- PageBreaks.DateAt and PageBreaks.DigitRun: read the `\d` of the date pattern (parsing.py:307, parsing.py:340) as ASCII `0-9`. Python's `\d` in a str pattern also matches every other Unicode decimal digit, so a printed line whose date is written in, say, Arabic-Indic digits opens a page break in Python and is kept by the model (`IsPrintedLine` is false on it).
- Python floats: coordinates, sizes, widths and money amounts are exact reals. `round(x, 2)` is modelled as round-half-even on exact hundredths, not on binary floats. There is no negative zero: a coordinate in (-0.005, 0) rounds to -0.0 in Python and prints as "-00.00", while `Fixed.FormatFixed2` prints "000.00".
- Fixed.FormatFixed2: no proof that reading its output back with `float` gives the rounded coordinate. `FormatFixed2Shape` states the digits' value instead.
- Text.Lower: lower-cases ASCII letters only; other letters are kept.
- Numerals: `int` and `float` accept only ASCII decimal text. Exponents, `inf`, `nan` and underscores are not accepted.
- Interpreter and Extraction: after an error the extractor's state is not specified. The source gives up on the page there.
- Dictionaries are maps: insertion order is not modelled. The in-place mutation of child dictionaries that `visit_county_section` and `visit_category_section` share with their caller is modelled by returning the changed children. Those two visitors return their children flattened, not in their original nesting.
- Reducers.EventsOf: a parse-tree node used as a list of case events yields no events. Its child nodes are not held in a `Value`.
- Reducers.CaseEventItems: a dictionary used as a case event, with keys of both kinds, is reported as `ValueError`. The source raises whichever error its first key meets, so the answer depends on key order.
- Reducers.CollectStep: a list or node never reaches it, since its input is flattened. It refuses one with `TypeError`.
- Reducers.SummaryStep: a list or node never reaches it either. It handles one as Python's `in` does: a list holding the string "docket_number" is appended to the dockets, and any other list, or a node, is skipped.
- Reducers.SummaryOfAtoms: assumes no child dictionary brings its own `dockets` entry. Such a child would replace the list, and the next docket would then raise.

## Findings

| source | as written | input that shows it | evidently intended | confidence | as-written member | corrected member |
|---|---|---|---|---|---|---|
| extraction.py:146-150 | each whole unicode-map text is compared with the one-character reserved strings (`char in get_special_characters()`) | a font whose code 65 maps to the two characters "a[" passes set-up; the segment it produces then reads back as "a" | refuse a font when any character of any of its texts is reserved | not executed | Extraction.ReservedAsWrittenMissesEmbedded | Extraction.FindReserved |

`Extraction.ReservedAsWritten` models the check as written. The rest of the
model uses the corrected per-character check:
- `Extraction.FindReserved` implements it;
- `Extraction.SetUpPage` applies it;
- `Extraction.SetUpCleanConfig` and `Extraction.ExtractedLinesReadBack` rely on it, so every extracted line reads back.
