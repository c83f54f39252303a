/**
 * `DocketPageObject.extract_text` run in place: a mutable `TextSegment`, the
 * local state of the page's interpreter, and the loops over the operator
 * stream and over `TJ` arrays. Every method is proved to leave exactly the
 * state that the pure machine of module Interpreter computes.
 */
module Extraction {
  import opened Wrappers
  import opened Markers
  import opened Text
  import opened Numerals
  import opened Fixed
  import opened Font
  import opened Interpreter

  /** `TextSegment`: the working segment, reset in place after each termination. */
  class TextSegment {
    var content: string
    var origin: Option<Point>
    /** Set only at termination, just before the segment is copied out. */
    var fontName: Option<string>
    var xCarry: real
    var yCarry: real

    /** The segment's fields as the interpreter sees them. */
    function AsDraft(): Draft
      reads this
    {
      Draft(content, origin, xCarry, yCarry)
    }

    constructor()
      ensures AsDraft() == EmptyDraft && fontName == None
    {
      content := "";
      origin := None;
      fontName := None;
      xCarry := 0.0;
      yCarry := 0.0;
    }

    /** `reset`: back to the freshly constructed segment. */
    method Reset()
      modifies this
      ensures AsDraft() == EmptyDraft && fontName == None
    {
      content := "";
      origin := None;
      fontName := None;
      xCarry := 0.0;
      yCarry := 0.0;
    }
  }

  /**
   * The local state of one `extract_text` call: the text state, its stack,
   * the working segment, `cur_displacement` and `extracted_segments`.
   */
  class PageExtractor {
    const config: Config
    const segment: TextSegment
    var textState: TextState
    var stack: seq<TextState>
    var displacement: real
    var extracted: seq<Segment>

    /** The whole state, as a value of the pure machine. */
    function Current(): State
      reads this, segment
    {
      State(textState, stack, segment.AsDraft(), displacement, extracted)
    }

    /** The machine's outcome `r` has been reached: its state on success, its error otherwise. */
    predicate Reached(r: Result<State, Error>, err: Option<Error>)
      reads this, segment
    {
      match r
      case Ok(t) => err == None && Current() == t
      case Err(e) => err == Some(e)
    }

    constructor(c: Config)
      ensures config == c && Current() == Initial
      ensures fresh(segment)
    {
      config := c;
      segment := new TextSegment();
      textState := TextState("", 0.0);
      stack := [];
      displacement := 0.0;
      extracted := [];
    }

    /** `terminate_segment`. */
    method TerminateSegment() returns (err: Option<Error>)
      modifies this, segment
      ensures Reached(Terminate(config, old(Current())), err)
    {
      err := None;
      if segment.content != "" {
        if segment.content[|segment.content| - 1] == BoxWrap {
          segment.content := segment.content[..|segment.content| - 1];
        }
        if textState.fontName !in config.outputNames {
          return Some(UnknownFont(textState.fontName));
        }
        segment.fontName := Some(config.outputNames[textState.fontName]);
        extracted := extracted + [Segment(segment.content, segment.origin, segment.fontName.value)];
      }
      segment.Reset();
      displacement := 0.0;
    }

    /** The `Td` handler. */
    method MoveTextPosition(dx: real, dy: real) returns (err: Option<Error>)
      modifies this, segment
      ensures Reached(Reposition(config, old(Current()), dx, dy), err)
    {
      err := None;
      if dy < 0.0 && Abs(dx + segment.xCarry) < config.xTolerance {
        segment.content := segment.content + [BoxWrap];
        segment.xCarry := 0.0;
        segment.yCarry := segment.yCarry + dy;
      } else if dy > 0.0 && Abs(dy + segment.yCarry) < config.yTolerance {
        segment.yCarry := 0.0;
        segment.xCarry := 0.0;
        if dx < 0.0 {
          segment.content := segment.content + [ComesBefore];
        } else {
          segment.content := segment.content + [Tab];
        }
      } else if Abs(dy) >= config.yTolerance {
        err := TerminateSegment();
      } else if dx < 0.0 && segment.content != "" {
        segment.content := segment.content + [ComesBefore];
      } else if dx > 0.0 && segment.content != "" {
        var spacing := dx - displacement;
        if spacing > config.xTolerance * textState.size {
          segment.content := segment.content + [Tab];
        } else if spacing < OverlapTolerance {
          // possibly overlapping text: only logged
        } else {
          segment.xCarry := segment.xCarry + dx;
        }
      }
      if err == None {
        displacement := 0.0;
      }
    }

    /** One byte string shown in the current font (the body of `Tj`, and a `TJ` string). */
    method ShowBytes(bs: seq<byte>) returns (err: Option<Error>)
      modifies this, segment
      ensures Reached(ShowGlyphs(config, old(Current()), bs), err)
    {
      var name := textState.fontName;
      if name !in config.fonts {
        return Some(UnknownFont(name));
      }
      var font := config.fonts[name];
      if !Decodable(font, bs) {
        return Some(UnmappedByte(name));
      }
      var content, width := GetContentAndWidth(font, bs);
      displacement := displacement + width as real / 1000.0 * textState.size;
      segment.content := segment.content + content;
      err := None;
    }

    /** The loop over the elements of a `TJ` array. */
    method ShowArray(items: seq<ShowItem>) returns (err: Option<Error>)
      modifies this, segment
      ensures Reached(ShowItems(config, old(Current()), items), err)
    {
      for i := 0 to |items|
        invariant ShowItems(config, old(Current()), items) == ShowItems(config, Current(), items[i..])
      {
        assert items[i..][0] == items[i] && items[i..][1..] == items[i + 1..];
        ghost var before := Current();
        match items[i]
        case Glyphs(bs) =>
          err := ShowBytes(bs);
          if err.Some? {
            return;
          }
        case Adjustment(a) =>
          displacement := displacement - a * textState.size / 1000.0;
          assert ShowElement(config, before, Adjustment(a)).value == Current();
          assert ShowElement(config, before, items[i]) == Ok(Current());
      }
      err := None;
    }

    /** `operation_visitor`: the handler of one operator. */
    method Visit(op: Op) returns (err: Option<Error>)
      modifies this, segment
      ensures Reached(Step(config, old(Current()), op), err)
    {
      if (op.ShowSpaced? || op.Show?) && segment.origin == None {
        segment.origin := Some(op.at);
      }
      err := None;
      match op
      case SetFont(font, size) =>
        err := TerminateSegment();
        if err == None {
          textState := TextState(font, size);
        }
      case SaveState =>
        stack := stack + [textState];
      case RestoreState =>
        err := TerminateSegment();
        if err == None {
          if stack == [] {
            err := Some(EmptyStack);
          } else {
            textState := stack[|stack| - 1];
            stack := stack[..|stack| - 1];
          }
        }
      case EndText =>
        err := TerminateSegment();
      case Move(dx, dy) =>
        err := MoveTextPosition(dx, dy);
      case ShowSpaced(items, _) =>
        err := ShowArray(items);
      case Show(bs, _) =>
        err := ShowBytes(bs);
      case Other(_) =>
    }
  }

  // =====================================================================
  // Page set-up

  /**
   * Why a page cannot be set up: a `/Widths` array too short for the font's
   * code range (`IndexError` while building the width table), or a unicode
   * text holding a reserved character (`PdfReadError`).
   */
  datatype SetupError = WidthsTooShort(font: string) | ReservedCharacter(font: string, text: string)

  /** The font wrappers of a page and the output name of each font. */
  datatype PageFonts = PageFonts(fonts: map<string, FontWrapper>, outputNames: map<string, string>)

  /** `/Widths` covers every code from `/FirstChar` to `/LastChar`. */
  predicate WidthsFit(d: FontDict) {
    d.lastChar - d.firstChar < |d.widthsArray|
  }

  /** `f` is the wrapper of `d`: the same unicode map, and the width table of its code range. */
  ghost predicate WrapsDict(f: FontWrapper, d: FontDict) {
    && f.unicodeMap == d.toUnicode
    && (forall i :: i in f.widths <==> d.firstChar <= i <= d.lastChar)
    && (forall i :: i in f.widths ==>
          0 <= i - d.firstChar < |d.widthsArray| && f.widths[i] == d.widthsArray[i - d.firstChar])
  }

  /** The output name the page gives a font with base font name `baseFont`. */
  function OutputName(baseFont: string): string {
    if Contains(Lower(baseFont), "bold") then "bold" else "normal"
  }

  /**
   * The reserved-character test as the source writes it: `char in
   * get_special_characters()` with `char` a whole unicode-map text, which
   * holds only when the text IS one of the six one-character strings.
   */
  function ReservedAsWritten(text: string): (b: bool)
    ensures b ==> HoldsReserved(text)
  {
    |text| == 1 && IsSpecial(text[0])
  }

  /** The test the check evidently intends: some character of the text is reserved. */
  predicate HoldsReserved(text: string) {
    exists k :: 0 <= k < |text| && IsSpecial(text[k])
  }

  /** No text of the unicode map holds a reserved character. */
  predicate MapClean(m: map<int, string>) {
    forall code :: code in m ==> !HoldsReserved(m[code])
  }

  /** The tables `DocketPageObject.__init__` builds from the page's font dictionaries. */
  ghost predicate PageFontsFor(p: PageFonts, dicts: map<string, FontDict>) {
    && p.fonts.Keys == dicts.Keys
    && p.outputNames.Keys == dicts.Keys
    && (forall n :: n in dicts ==> WrapsDict(p.fonts[n], dicts[n]))
    && (forall n :: n in dicts ==> p.outputNames[n] == OutputName(dicts[n].baseFont))
  }

  /** The loop over the texts of a unicode map: the first one holding a reserved character, if any. */
  method FindReserved(m: map<int, string>) returns (found: Option<string>)
    ensures found == None <==> MapClean(m)
    ensures found.Some? ==> found.value in m.Values && HoldsReserved(found.value)
  {
    var codes := m.Keys;
    while codes != {}
      invariant codes <= m.Keys
      invariant forall code :: code in m.Keys - codes ==> !HoldsReserved(m[code])
      decreases codes
    {
      SomeCode(codes);
      var code :| code in codes;
      if HoldsReserved(m[code]) {
        return Some(m[code]);
      }
      codes := codes - {code};
    }
    return None;
  }

  lemma SomeCode(codes: set<int>)
    requires codes != {}
    ensures exists code :: code in codes
  {
    if forall code :: code !in codes {
      assert false;
    }
  }

  /**
   * The font set-up of `DocketPageObject.__init__`: every font is wrapped
   * first (a too-short `/Widths` array fails there), then each font's
   * unicode texts are checked for reserved characters and the font gets its
   * output name. Fonts are visited in an unspecified order, as dictionary
   * iteration is not something the model fixes.
   */
  method SetUpPage(dicts: map<string, FontDict>) returns (r: Result<PageFonts, SetupError>)
    ensures r.Ok? <==> forall n :: n in dicts ==> WidthsFit(dicts[n]) && MapClean(dicts[n].toUnicode)
    ensures r.Ok? ==> PageFontsFor(r.value, dicts)
    ensures r.Err? && r.error.WidthsTooShort? ==>
      r.error.font in dicts && !WidthsFit(dicts[r.error.font])
    ensures r.Err? && r.error.ReservedCharacter? ==>
      && (forall n :: n in dicts ==> WidthsFit(dicts[n]))
      && r.error.font in dicts
      && r.error.text in dicts[r.error.font].toUnicode.Values
      && HoldsReserved(r.error.text)
  {
    var fonts := WrapFonts(dicts);
    if fonts.Err? {
      return Err(fonts.error);
    }
    var names := NameFonts(dicts);
    if names.Err? {
      return Err(names.error);
    }
    return Ok(PageFonts(fonts.value, names.value));
  }

  /** The first loop of the set-up: every font dictionary wrapped. */
  method WrapFonts(dicts: map<string, FontDict>) returns (r: Result<map<string, FontWrapper>, SetupError>)
    ensures r.Ok? <==> forall n :: n in dicts ==> WidthsFit(dicts[n])
    ensures r.Ok? ==> r.value.Keys == dicts.Keys && forall n :: n in dicts ==> WrapsDict(r.value[n], dicts[n])
    ensures r.Err? ==> r.error.WidthsTooShort? && r.error.font in dicts && !WidthsFit(dicts[r.error.font])
  {
    var fonts: map<string, FontWrapper> := map[];
    var todo := dicts.Keys;
    while todo != {}
      invariant todo <= dicts.Keys
      invariant fonts.Keys == dicts.Keys - todo
      invariant forall n :: n in fonts ==> WidthsFit(dicts[n]) && WrapsDict(fonts[n], dicts[n])
      decreases todo
    {
      var name :| name in todo;
      if !WidthsFit(dicts[name]) {
        return Err(WidthsTooShort(name));
      }
      var f := Wrap(dicts[name]);
      fonts := fonts[name := f];
      todo := todo - {name};
    }
    return Ok(fonts);
  }

  /** The second loop of the set-up: every font's texts checked and its output name chosen. */
  method NameFonts(dicts: map<string, FontDict>) returns (r: Result<map<string, string>, SetupError>)
    ensures r.Ok? <==> forall n :: n in dicts ==> MapClean(dicts[n].toUnicode)
    ensures r.Ok? ==> r.value.Keys == dicts.Keys && forall n :: n in dicts ==> r.value[n] == OutputName(dicts[n].baseFont)
    ensures r.Err? ==>
      && r.error.ReservedCharacter?
      && r.error.font in dicts
      && r.error.text in dicts[r.error.font].toUnicode.Values
      && HoldsReserved(r.error.text)
  {
    var names: map<string, string> := map[];
    var todo := dicts.Keys;
    while todo != {}
      invariant todo <= dicts.Keys
      invariant names.Keys == dicts.Keys - todo
      invariant forall n :: n in names ==> MapClean(dicts[n].toUnicode)
      invariant forall n :: n in names ==> names[n] == OutputName(dicts[n].baseFont)
      decreases todo
    {
      var name :| name in todo;
      var found := FindReserved(dicts[name].toUnicode);
      if found.Some? {
        return Err(ReservedCharacter(name, found.value));
      }
      if Contains(Lower(dicts[name].baseFont), "bold") {
        names := names[name := "bold"];
      } else {
        names := names[name := "normal"];
      }
      todo := todo - {name};
    }
    return Ok(names);
  }

  /** The interpreter's configuration for a set-up page and the two tolerances. */
  function ConfigOf(p: PageFonts, xTolerance: real, yTolerance: real): Config {
    Config(p.fonts, p.outputNames, xTolerance, yTolerance)
  }

  // =====================================================================
  // Serialisation

  /**
   * `segment_to_str`: the content, then the rounded coordinates and the
   * font's output name between brackets, then the terminator. A segment that
   * never got an origin makes the source fail with `TypeError`.
   */
  function SegmentToStr(seg: Segment): (r: Result<string, Error>)
    ensures r.Err? <==> seg.origin.None?
    ensures r.Err? ==> r.error == MissingOrigin
  {
    match seg.origin
    case None => Err(MissingOrigin)
    case Some(p) =>
      Ok(seg.content + [PropsOpen] + FormatFixed2(p.0) + "," + FormatFixed2(p.1) + ","
         + seg.fontName + [PropsClose, Terminator])
  }

  /** The serialised segments of a page, in order. */
  function SegmentsText(segs: seq<Segment>): (r: Result<string, Error>)
    ensures r.Err? <==> exists i :: 0 <= i < |segs| && segs[i].origin.None?
    ensures r.Err? ==> r.error == MissingOrigin
  {
    if segs == [] then Ok("")
    else
      var prefix :- SegmentsText(segs[..|segs| - 1]);
      var line :- SegmentToStr(segs[|segs| - 1]);
      Ok(prefix + line)
  }

  /** What `extract_text` returns for a page: its operators run, its segments serialised. */
  function PageText(c: Config, ops: seq<Op>): Result<string, Error> {
    var s :- Run(c, Initial, ops);
    SegmentsText(s.segments)
  }

  /**
   * `extract_text`: the operators are visited in order, the first error
   * ends the page, and the segments terminated by then are serialised. A
   * segment still open after the last operator is not output.
   */
  method ExtractText(page: PageFonts, xTolerance: real, yTolerance: real, ops: seq<Op>)
    returns (r: Result<string, Error>)
    ensures r == PageText(ConfigOf(page, xTolerance, yTolerance), ops)
  {
    var c := ConfigOf(page, xTolerance, yTolerance);
    var extractor := new PageExtractor(c);
    for i := 0 to |ops|
      invariant fresh(extractor) && fresh(extractor.segment) && extractor.config == c
      invariant Run(c, Initial, ops) == Run(c, extractor.Current(), ops[i..])
    {
      assert ops[i..][0] == ops[i] && ops[i..][1..] == ops[i + 1..];
      var err := extractor.Visit(ops[i]);
      if err.Some? {
        return Err(err.value);
      }
    }
    assert ops[|ops|..] == [];
    r := JoinSegments(extractor.extracted);
  }

  /** The serialised segments of a page, in order; one without an origin ends the page. */
  method JoinSegments(segs: seq<Segment>) returns (r: Result<string, Error>)
    ensures r == SegmentsText(segs)
  {
    var text := "";
    for j := 0 to |segs|
      invariant SegmentsText(segs[..j]) == Ok(text)
    {
      assert segs[..j + 1][..j] == segs[..j];
      var line := SegmentToStr(segs[j]);
      if line.Err? {
        assert segs[j].origin.None?;
        return Err(MissingOrigin);
      }
      text := text + line.value;
    }
    assert segs[..|segs|] == segs;
    return Ok(text);
  }

  // =====================================================================
  // Reading serialised segments back

  /**
   * A serialised segment read back: the text before its first `[`, and the
   * comma-separated fields between that `[` and the `]` before the final
   * terminator.
   */
  function SplitSegmentLine(line: string): Option<(string, seq<string>)> {
    if |line| < 2 || line[|line| - 2] != PropsClose || line[|line| - 1] != Terminator
       || PropsOpen !in line
    then None
    else
      var k := IndexOf(line, PropsOpen);
      Some((line[..k], Split(line[k + 1..|line| - 2], ',')))
  }

  /** The characters only the serialiser writes into page text. */
  const Structural: set<char> := {PropsOpen, PropsClose, Terminator}

  /** A segment whose content and font name hold no structural character (and the name no comma). */
  predicate CleanSegment(seg: Segment) {
    Avoids(seg.content, Structural) && Avoids(seg.fontName, Structural + {','})
  }

  /**
   * `segment_to_str` is undone by reading the line back: for a segment with
   * an origin and clean content and font name, the content and the three
   * fields (both coordinates and the font name) come back unchanged.
   */
  lemma SegmentLineRoundTrip(seg: Segment)
    requires seg.origin.Some? && CleanSegment(seg)
    ensures SplitSegmentLine(SegmentToStr(seg).value)
      == Some((seg.content, [FormatFixed2(seg.origin.value.0), FormatFixed2(seg.origin.value.1), seg.fontName]))
  {
    var fx, fy := FormatFixed2(seg.origin.value.0), FormatFixed2(seg.origin.value.1);
    assert ',' !in fx && ',' !in fy;
    assert ',' !in seg.fontName && PropsOpen !in seg.content;
    ReadBack(seg.content, fx, fy, seg.fontName);
  }

  /** Reading back a line built from a `[`-free content and three comma-free fields. */
  lemma ReadBack(content: string, fx: string, fy: string, font: string)
    requires PropsOpen !in content
    requires ',' !in fx && ',' !in fy && ',' !in font
    ensures SplitSegmentLine(content + [PropsOpen] + fx + "," + fy + "," + font + [PropsClose, Terminator])
      == Some((content, [fx, fy, font]))
  {
    var props := fx + "," + fy + "," + font;
    var line := content + [PropsOpen] + fx + "," + fy + "," + font + [PropsClose, Terminator];
    assert line == content + [PropsOpen] + props + [PropsClose, Terminator];
    ReadBackLine(line, content, props);
    JoinThree(fx, fy, font);
    SplitJoin([fx, fy, font], ',');
  }

  lemma ReadBackLine(line: string, content: string, props: string)
    requires PropsOpen !in content
    requires line == content + [PropsOpen] + props + [PropsClose, Terminator]
    ensures SplitSegmentLine(line) == Some((content, Split(props, ',')))
  {
    var rest := [PropsOpen] + props + [PropsClose, Terminator];
    assert line == content + rest;
    IndexOfAfter(content, rest, PropsOpen);
    assert rest[0] == PropsOpen;
    var k := |content|;
    assert IndexOf(line, PropsOpen) == k && line[k] == PropsOpen;
    assert line[|line| - 2] == PropsClose && line[|line| - 1] == Terminator;
    assert line[..k] == content;
    assert line[k + 1..|line| - 2] == props;
  }

  lemma JoinThree(a: string, b: string, c: string)
    ensures Join([a, b, c], ',') == a + "," + b + "," + c
  {
    assert [a, b, c][1..] == [b, c];
    assert [b, c][1..] == [c];
    assert Join([b, c], ',') == b + [','] + c;
    assert Join([a, b, c], ',') == a + [','] + (b + [','] + c);
  }

  /**
   * The format the grammar relies on: splitting a clean serialised segment
   * at `[` gives exactly two pieces, the content (with no `]`) and the
   * bracketed properties.
   */
  lemma SegmentLineSplitsInTwo(seg: Segment)
    requires seg.origin.Some? && CleanSegment(seg)
    ensures var pieces := Split(SegmentToStr(seg).value, PropsOpen);
      && |pieces| == 2 && pieces[0] == seg.content && PropsClose !in pieces[0]
  {
    var fx, fy := FormatFixed2(seg.origin.value.0), FormatFixed2(seg.origin.value.1);
    var props := fx + "," + fy + "," + seg.fontName + [PropsClose, Terminator];
    assert SegmentToStr(seg).value == seg.content + [PropsOpen] + props;
    assert PropsOpen !in props;
    SplitAtSeparator(seg.content, props, PropsOpen);
    SplitWithoutSeparator(props, PropsOpen);
    assert PropsClose !in seg.content;
  }

  // =====================================================================
  // Clean pages

  /** Every font of the page decodes no structural character, and no output name holds one or a comma. */
  predicate CleanConfig(c: Config) {
    && (forall n :: n in c.fonts ==> MapAvoids(c.fonts[n], Structural))
    && (forall n :: n in c.outputNames ==> Avoids(c.outputNames[n], Structural + {','}))
  }

  /** The working content and every finished segment are free of structural characters. */
  predicate CleanState(s: State) {
    && Avoids(s.draft.content, Structural)
    && forall i :: 0 <= i < |s.segments| ==> CleanSegment(s.segments[i])
  }

  /** A page set up without error has a clean configuration, whatever the tolerances. */
  lemma SetUpCleanConfig(dicts: map<string, FontDict>, p: PageFonts, xTolerance: real, yTolerance: real)
    requires PageFontsFor(p, dicts)
    requires forall n :: n in dicts ==> MapClean(dicts[n].toUnicode)
    ensures CleanConfig(ConfigOf(p, xTolerance, yTolerance))
  {
    forall n | n in p.fonts
      ensures MapAvoids(p.fonts[n], Structural)
    {
      var m := p.fonts[n].unicodeMap;
      assert m == dicts[n].toUnicode;
      forall code | code in m
        ensures Avoids(m[code], Structural)
      {
        UnreservedAvoids(m[code]);
      }
    }
    forall n | n in p.outputNames
      ensures Avoids(p.outputNames[n], Structural + {','})
    {
      OutputNameAvoids(dicts[n].baseFont);
    }
  }

  /** Text without a reserved character holds no structural one. */
  lemma UnreservedAvoids(t: string)
    requires !HoldsReserved(t)
    ensures Avoids(t, Structural)
  {
    forall k | 0 <= k < |t|
      ensures t[k] !in Structural
    {
      assert !IsSpecial(t[k]);
    }
  }

  lemma OutputNameAvoids(baseFont: string)
    ensures Avoids(OutputName(baseFont), Structural + {','})
  {
    assert OutputName(baseFont) == "bold" || OutputName(baseFont) == "normal";
  }

  lemma TerminateClean(c: Config, s: State)
    requires CleanConfig(c) && CleanState(s)
    requires Terminate(c, s).Ok?
    ensures CleanState(Terminate(c, s).value)
  {
    var t := Terminate(c, s).value;
    if s.draft.content != "" {
      var done := t.segments[|s.segments|];
      assert done.content == DropTrailingBoxWrap(s.draft.content);
      assert CleanSegment(done);
      forall i | 0 <= i < |t.segments|
        ensures CleanSegment(t.segments[i])
      {
        if i < |s.segments| {
          assert t.segments[i] == s.segments[i];
        }
      }
    }
  }

  lemma ShowGlyphsClean(c: Config, s: State, bs: seq<byte>)
    requires CleanConfig(c) && Avoids(s.draft.content, Structural)
    requires ShowGlyphs(c, s, bs).Ok?
    ensures Avoids(ShowGlyphs(c, s, bs).value.draft.content, Structural)
    ensures ShowGlyphs(c, s, bs).value.segments == s.segments
  {
    var f := c.fonts[s.textState.fontName];
    DecodedAvoids(f, bs, Structural);
  }

  lemma {:induction false} ShowItemsClean(c: Config, s: State, items: seq<ShowItem>)
    requires CleanConfig(c) && CleanState(s)
    requires ShowItems(c, s, items).Ok?
    ensures CleanState(ShowItems(c, s, items).value)
    decreases |items|
  {
    if items != [] {
      var t := ShowElement(c, s, items[0]).value;
      if items[0].Glyphs? {
        ShowGlyphsClean(c, s, items[0].bytes);
      }
      assert CleanState(t);
      ShowItemsClean(c, t, items[1..]);
    }
  }

  lemma RepositionClean(c: Config, s: State, dx: real, dy: real)
    requires CleanConfig(c) && CleanState(s)
    requires Reposition(c, s, dx, dy).Ok?
    ensures CleanState(Reposition(c, s, dx, dy).value)
  {
    if Reposition(c, s, dx, dy) == Terminate(c, s) {
      TerminateClean(c, s);
    }
  }

  /** No operator brings a structural character into the content of a clean page. */
  lemma StepClean(c: Config, s: State, op: Op)
    requires CleanConfig(c) && CleanState(s)
    requires Step(c, s, op).Ok?
    ensures CleanState(Step(c, s, op).value)
  {
    match op
    case SetFont(_, _) => TerminateClean(c, s);
    case RestoreState => TerminateClean(c, s);
    case EndText => TerminateClean(c, s);
    case Move(dx, dy) => RepositionClean(c, s, dx, dy);
    case ShowSpaced(items, at) => ShowItemsClean(c, WithOrigin(s, at), items);
    case Show(bs, at) => ShowGlyphsClean(c, WithOrigin(s, at), bs);
    case SaveState =>
    case Other(_) =>
  }

  lemma {:induction false} RunClean(c: Config, s: State, ops: seq<Op>)
    requires CleanConfig(c) && CleanState(s)
    requires Run(c, s, ops).Ok?
    ensures CleanState(Run(c, s, ops).value)
    decreases |ops|
  {
    if ops != [] {
      StepClean(c, s, ops[0]);
      RunClean(c, Step(c, s, ops[0]).value, ops[1..]);
    }
  }

  /**
   * On a clean page every extracted segment that has an origin serialises
   * to a line that reads back as its content, its two formatted coordinates
   * and its font's output name.
   */
  lemma ExtractedLinesReadBack(c: Config, ops: seq<Op>)
    requires CleanConfig(c)
    requires Run(c, Initial, ops).Ok?
    ensures var segs := Run(c, Initial, ops).value.segments;
      forall i :: 0 <= i < |segs| && segs[i].origin.Some? ==>
        SplitSegmentLine(SegmentToStr(segs[i]).value)
          == Some((segs[i].content, [FormatFixed2(segs[i].origin.value.0),
                                     FormatFixed2(segs[i].origin.value.1), segs[i].fontName]))
  {
    RunClean(c, Initial, ops);
    var segs := Run(c, Initial, ops).value.segments;
    forall i | 0 <= i < |segs| && segs[i].origin.Some?
      ensures SplitSegmentLine(SegmentToStr(segs[i]).value)
          == Some((segs[i].content, [FormatFixed2(segs[i].origin.value.0),
                                     FormatFixed2(segs[i].origin.value.1), segs[i].fontName]))
    {
      SegmentLineRoundTrip(segs[i]);
    }
  }

  /** A clean segment's line ends with the terminator and holds no other. */
  lemma SegmentLineBody(seg: Segment)
    requires seg.origin.Some? && CleanSegment(seg)
    ensures var line := SegmentToStr(seg).value;
      |line| >= 1 && line[|line| - 1] == Terminator && Terminator !in line[..|line| - 1]
  {
    var fx, fy := FormatFixed2(seg.origin.value.0), FormatFixed2(seg.origin.value.1);
    var body := seg.content + [PropsOpen] + fx + "," + fy + "," + seg.fontName + [PropsClose];
    var line := SegmentToStr(seg).value;
    assert line == body + [Terminator];
    assert line[..|line| - 1] == body;
    assert Terminator !in seg.content && Terminator !in seg.fontName;
    assert Terminator !in fx && Terminator !in fy;
  }

  /**
   * Serialised segments split at the terminator into one line per segment,
   * each that segment's serialisation without its terminator, and a final
   * empty piece: the text of a page with segments ends with the terminator.
   */
  lemma {:induction false} SegmentsTextLines(segs: seq<Segment>)
    requires SegmentsText(segs).Ok?
    requires forall i :: 0 <= i < |segs| ==> CleanSegment(segs[i])
    ensures var text := SegmentsText(segs).value;
      segs != [] ==> |text| >= 1 && text[|text| - 1] == Terminator
    ensures var pieces := Split(SegmentsText(segs).value, Terminator);
      && |pieces| == |segs| + 1 && pieces[|segs|] == ""
      && forall i :: 0 <= i < |segs| ==> pieces[i] + [Terminator] == SegmentToStr(segs[i]).value
    decreases |segs|
  {
    if segs != [] {
      var init, last := segs[..|segs| - 1], segs[|segs| - 1];
      SegmentsTextLines(init);
      var prefix := SegmentsText(init).value;
      var line := SegmentToStr(last).value;
      SegmentLineBody(last);
      var body := line[..|line| - 1];
      assert line == body + [Terminator];
      assert SegmentsText(segs).value == prefix + line;
      SplitAppendLine(prefix, body, Terminator);
      assert prefix + line == prefix + body + [Terminator];
      ExtendLines(segs, Split(prefix, Terminator), body);
    }
  }

  /** The step of `SegmentsTextLines`: the last segment's line replaces the final empty piece. */
  lemma ExtendLines(segs: seq<Segment>, earlier: seq<string>, body: string)
    requires |segs| >= 1 && |earlier| == |segs|
    requires forall i :: 0 <= i < |segs| ==> segs[i].origin.Some?
    requires forall i :: 0 <= i < |segs| - 1 ==> earlier[i] + [Terminator] == SegmentToStr(segs[..|segs| - 1][i]).value
    requires body + [Terminator] == SegmentToStr(segs[|segs| - 1]).value
    ensures var pieces := earlier[..|segs| - 1] + [body, ""];
      forall i :: 0 <= i < |segs| ==> pieces[i] + [Terminator] == SegmentToStr(segs[i]).value
  {
    var pieces := earlier[..|segs| - 1] + [body, ""];
    forall i | 0 <= i < |segs|
      ensures pieces[i] + [Terminator] == SegmentToStr(segs[i]).value
    {
      if i < |segs| - 1 {
        assert pieces[i] == earlier[i] && segs[..|segs| - 1][i] == segs[i];
      } else {
        assert pieces[i] == body;
      }
    }
  }

  /**
   * The text extracted from a page that set up cleanly splits at the
   * terminator into one line per extracted segment and a final empty piece
   * (so the text ends with the terminator when some segment is extracted,
   * and is empty when none is), and each line with the terminator put back
   * is that segment serialised.
   */
  lemma PageLines(c: Config, ops: seq<Op>)
    requires CleanConfig(c)
    requires PageText(c, ops).Ok?
    ensures var segs := Run(c, Initial, ops).value.segments;
      var pieces := Split(PageText(c, ops).value, Terminator);
      && |pieces| == |segs| + 1 && pieces[|segs|] == ""
      && forall i :: 0 <= i < |segs| ==> pieces[i] + [Terminator] == SegmentToStr(segs[i]).value
  {
    RunClean(c, Initial, ops);
    SegmentsTextLines(Run(c, Initial, ops).value.segments);
  }

  /**
   * The reserved-character check as written accepts a font whose code 65
   * stands for the two characters "a[": it decodes that byte to text holding
   * `[`, and a segment with that content reads back as just "a".
   */
  lemma ReservedAsWrittenMissesEmbedded(p: Point, font: string)
    ensures !ReservedAsWritten("a[") && HoldsReserved("a[")
    ensures var f := FontWrapper(map[65 := "a["], map[65 := 500]);
      Decodable(f, [65]) && DecodedText(f, [65]) == "a["
    ensures var line := SegmentToStr(Segment("a[", Some(p), font)).value;
      SplitSegmentLine(line).Some? && SplitSegmentLine(line).value.0 == "a"
  {
    assert IsSpecial("a["[1]);
    assert [65 as byte][..0] == [];
    EmbeddedReadsBack(p, font);
  }

  /** The line of a segment with content "a[" reads back as content "a". */
  lemma EmbeddedReadsBack(p: Point, font: string)
    ensures var line := SegmentToStr(Segment("a[", Some(p), font)).value;
      SplitSegmentLine(line).Some? && SplitSegmentLine(line).value.0 == "a"
  {
    var props := [PropsOpen] + FormatFixed2(p.0) + "," + FormatFixed2(p.1) + "," + font;
    var line := SegmentToStr(Segment("a[", Some(p), font)).value;
    assert "a[" == "a" + [PropsOpen];
    assert line == "a" + [PropsOpen] + props + [PropsClose, Terminator];
    ReadBackLine(line, "a", props);
  }

  /**
   * A box wrap before any glyph is shown leaves a segment whose only
   * character is the box wrap; termination drops it and still outputs the
   * now empty segment, which has no origin, so serialising the page fails.
   */
  lemma LoneBoxWrapLosesOrigin(c: Config)
    requires c.xTolerance > 0.0 && "F1" in c.outputNames
    ensures PageText(c, [SetFont("F1", 10.0), Move(0.0, -5.0), EndText]) == Err(MissingOrigin)
  {
    var ops := [SetFont("F1", 10.0), Move(0.0, -5.0), EndText];
    var s1 := Initial.(textState := TextState("F1", 10.0));
    assert Step(c, Initial, ops[0]) == Ok(s1);
    var s2 := s1.(draft := Draft([BoxWrap], None, 0.0, -5.0));
    assert s1.draft.content + [BoxWrap] == [BoxWrap];
    assert Reposition(c, s1, 0.0, -5.0) == Ok(s2);
    assert Step(c, s1, ops[1]) == Ok(s2);
    var s3 := s2.(draft := EmptyDraft, segments := [Segment("", None, c.outputNames["F1"])]);
    assert DropTrailingBoxWrap([BoxWrap]) == "";
    assert s2.textState.fontName == "F1" && s2.draft.origin == None;
    assert s2.segments + [Segment("", None, c.outputNames["F1"])] == s3.segments;
    assert Terminate(c, s2) == Ok(s3);
    assert Step(c, s2, ops[2]) == Ok(s3);
    assert ops[1..][1..] == [EndText];
    assert Run(c, Initial, ops) == Ok(s3);
  }
}
