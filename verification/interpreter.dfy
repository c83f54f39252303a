/**
 * The content-stream interpreter of `DocketPageObject.extract_text`, as a
 * pure state machine: the state is the current text state (font, size), the
 * stack of saved text states, the working segment, the displacement shown
 * since the last move, and the list of finished segments. `Step` gives the
 * effect of one operator; the class in module Extraction runs the same
 * machine in place and is proved against it.
 */
module Interpreter {
  import opened Wrappers
  import opened Markers
  import opened Font

  /** A point in device space. */
  type Point = (real, real)

  /** `TextState`: the font resource name and the font size. */
  datatype TextState = TextState(fontName: string, size: real)

  /**
   * The working `TextSegment` between two terminations: its content, the
   * origin frozen by its first glyph-showing operator, and the x and y
   * translation accumulated by moves since it started.
   */
  datatype Draft = Draft(content: string, origin: Option<Point>, xCarry: real, yCarry: real)

  /** A freshly reset `TextSegment`. */
  const EmptyDraft: Draft := Draft("", None, 0.0, 0.0)

  /** A terminated segment, labelled with its font's output name. */
  datatype Segment = Segment(content: string, origin: Option<Point>, fontName: string)

  /** One element of a `TJ` array: a byte string or a numeric adjustment. */
  datatype ShowItem = Glyphs(bytes: seq<byte>) | Adjustment(amount: real)

  /**
   * The operators the interpreter distinguishes: `Tf`, `q`, `Q`, `ET`, `Td`,
   * `TJ`, `Tj`, and every other operator, which only gets logged. `at` is the
   * device-space point of the text origin when a showing operator runs.
   */
  datatype Op =
    | SetFont(font: string, size: real)
    | SaveState
    | RestoreState
    | EndText
    | Move(dx: real, dy: real)
    | ShowSpaced(items: seq<ShowItem>, at: Point)
    | Show(bytes: seq<byte>, at: Point)
    | Other(name: string)

  /**
   * What a page brings to extraction: its fonts, the output name ("bold" or
   * "normal") of each, and the two tolerances.
   */
  datatype Config = Config(
    fonts: map<string, FontWrapper>,
    outputNames: map<string, string>,
    xTolerance: real,
    yTolerance: real)

  const DefaultXTolerance: real := 0.3
  const DefaultYTolerance: real := 1.0
  /** Spacing below this is logged as possibly overlapping text and otherwise ignored. */
  const OverlapTolerance: real := -0.1

  datatype State = State(
    textState: TextState,
    stack: seq<TextState>,
    draft: Draft,
    displacement: real,
    segments: seq<Segment>)

  /** The state `extract_text` starts a page with. */
  const Initial: State := State(TextState("", 0.0), [], EmptyDraft, 0.0, [])

  /**
   * The exceptions the source lets escape: `KeyError` for a font missing from
   * the page, `KeyError` for a byte missing from the font's maps, `IndexError`
   * for a `Q` with nothing saved, and the `TypeError` the serialiser raises
   * for a segment that never got an origin.
   */
  datatype Error = UnknownFont(name: string) | UnmappedByte(font: string) | EmptyStack | MissingOrigin

  function Abs(x: real): real {
    if x < 0.0 then -x else x
  }

  function DropTrailingBoxWrap(s: string): string {
    if s != [] && s[|s| - 1] == BoxWrap then s[..|s| - 1] else s
  }

  /** `terminate_segment`. */
  function Terminate(c: Config, s: State): Result<State, Error> {
    if s.draft.content == "" then
      Ok(s.(draft := EmptyDraft, displacement := 0.0))
    else if s.textState.fontName !in c.outputNames then
      Err(UnknownFont(s.textState.fontName))
    else
      var done := Segment(DropTrailingBoxWrap(s.draft.content), s.draft.origin,
                          c.outputNames[s.textState.fontName]);
      Ok(s.(segments := s.segments + [done], draft := EmptyDraft, displacement := 0.0))
  }

  /** The `Td` handler: the ordered five-case classifier of a move by (dx, dy). */
  function Reposition(c: Config, s: State, dx: real, dy: real): Result<State, Error> {
    var d := s.draft;
    if dy < 0.0 && Abs(dx + d.xCarry) < c.xTolerance then
      Ok(s.(draft := d.(content := d.content + [BoxWrap], xCarry := 0.0, yCarry := d.yCarry + dy),
            displacement := 0.0))
    else if dy > 0.0 && Abs(dy + d.yCarry) < c.yTolerance then
      var marker := if dx < 0.0 then ComesBefore else Tab;
      Ok(s.(draft := d.(content := d.content + [marker], xCarry := 0.0, yCarry := 0.0),
            displacement := 0.0))
    else if Abs(dy) >= c.yTolerance then
      Terminate(c, s)
    else if dx < 0.0 && d.content != "" then
      Ok(s.(draft := d.(content := d.content + [ComesBefore]), displacement := 0.0))
    else if dx > 0.0 && d.content != "" then
      var spacing := dx - s.displacement;
      if spacing > c.xTolerance * s.textState.size then
        Ok(s.(draft := d.(content := d.content + [Tab]), displacement := 0.0))
      else if spacing < OverlapTolerance then
        Ok(s.(displacement := 0.0))
      else
        Ok(s.(draft := d.(xCarry := d.xCarry + dx), displacement := 0.0))
    else
      Ok(s.(displacement := 0.0))
  }

  /** The first glyph-showing operator of a segment freezes its origin. */
  function WithOrigin(s: State, at: Point): State {
    if s.draft.origin.None? then s.(draft := s.draft.(origin := Some(at))) else s
  }

  /** One byte string shown in the current font: text appended, scaled width added. */
  function ShowGlyphs(c: Config, s: State, bs: seq<byte>): Result<State, Error> {
    var name := s.textState.fontName;
    if name !in c.fonts then Err(UnknownFont(name))
    else if !Decodable(c.fonts[name], bs) then Err(UnmappedByte(name))
    else
      var f := c.fonts[name];
      Ok(s.(draft := s.draft.(content := s.draft.content + DecodedText(f, bs)),
            displacement := s.displacement + TotalWidth(f, bs) as real / 1000.0 * s.textState.size))
  }

  /** One element of a `TJ` array. */
  function ShowElement(c: Config, s: State, item: ShowItem): Result<State, Error> {
    match item
    case Glyphs(bs) => ShowGlyphs(c, s, bs)
    case Adjustment(a) => Ok(s.(displacement := s.displacement - a * s.textState.size / 1000.0))
  }

  /** The elements of a `TJ` array, left to right. */
  function ShowItems(c: Config, s: State, items: seq<ShowItem>): Result<State, Error>
    decreases |items|
  {
    if items == [] then Ok(s)
    else
      var t :- ShowElement(c, s, items[0]);
      ShowItems(c, t, items[1..])
  }

  /** `operation_visitor`: the effect of one operator. */
  function Step(c: Config, s: State, op: Op): Result<State, Error> {
    match op
    case SetFont(font, size) =>
      var t :- Terminate(c, s);
      Ok(t.(textState := TextState(font, size)))
    case SaveState =>
      Ok(s.(stack := s.stack + [s.textState]))
    case RestoreState =>
      var t :- Terminate(c, s);
      if t.stack == [] then Err(EmptyStack)
      else Ok(t.(textState := t.stack[|t.stack| - 1], stack := t.stack[..|t.stack| - 1]))
    case EndText =>
      Terminate(c, s)
    case Move(dx, dy) =>
      Reposition(c, s, dx, dy)
    case ShowSpaced(items, at) =>
      ShowItems(c, WithOrigin(s, at), items)
    case Show(bs, at) =>
      ShowGlyphs(c, WithOrigin(s, at), bs)
    case Other(_) =>
      Ok(s)
  }

  /** The operators of a page in order; the first error ends the page. */
  function Run(c: Config, s: State, ops: seq<Op>): Result<State, Error>
    decreases |ops|
  {
    if ops == [] then Ok(s)
    else
      var t :- Step(c, s, ops[0]);
      Run(c, t, ops[1..])
  }

  // =====================================================================
  // Termination

  /**
   * Termination emits a segment exactly when the content is non-empty, drops
   * exactly one trailing box-wrap, labels the segment with the current font's
   * output name, and always leaves the segment reset and the displacement 0.
   */
  lemma TerminateEffect(c: Config, s: State)
    ensures Terminate(c, s).Err? <==> s.draft.content != "" && s.textState.fontName !in c.outputNames
    ensures Terminate(c, s).Ok? ==>
      var t := Terminate(c, s).value;
      && t.draft == EmptyDraft && t.displacement == 0.0
      && t.textState == s.textState && t.stack == s.stack
      && (s.draft.content == "" ==> t.segments == s.segments)
      && (s.draft.content != "" ==>
            && |t.segments| == |s.segments| + 1
            && t.segments[..|s.segments|] == s.segments
            && var done := t.segments[|s.segments|];
            && done.origin == s.draft.origin
            && done.fontName == c.outputNames[s.textState.fontName]
            && (if s.draft.content[|s.draft.content| - 1] == BoxWrap
                then done.content + [BoxWrap] == s.draft.content
                else done.content == s.draft.content))
  {
  }

  /**
   * `Tf` ends the segment first and only then takes the new font and size:
   * the segment emitted is labelled with the font in force before `Tf`.
   */
  lemma FontChangeEndsSegment(c: Config, s: State, font: string, size: real)
    ensures Step(c, s, SetFont(font, size)).Ok? <==> Terminate(c, s).Ok?
    ensures Step(c, s, SetFont(font, size)).Ok? ==>
      var t := Step(c, s, SetFont(font, size)).value;
      && t.textState == TextState(font, size) && t.stack == s.stack
      && t.draft == EmptyDraft && t.displacement == 0.0
      && t.segments == Terminate(c, s).value.segments
  {
    TerminateEffect(c, s);
  }

  // =====================================================================
  // The five cases of a move

  /** Every move ends with the displacement at 0, and only a large vertical move emits. */
  lemma MoveResetsDisplacement(c: Config, s: State, dx: real, dy: real)
    requires Reposition(c, s, dx, dy).Ok?
    ensures Reposition(c, s, dx, dy).value.displacement == 0.0
    ensures Reposition(c, s, dx, dy).value.segments != s.segments ==> Abs(dy) >= c.yTolerance
  {
  }

  /**
   * Across all five cases a move loses no text: either the finished segments
   * are unchanged and the content only grows, or the content is finished as
   * exactly one new segment (one trailing box wrap dropped, if it ends
   * with one) and the content starts again empty.
   */
  lemma MoveKeepsText(c: Config, s: State, dx: real, dy: real)
    requires Reposition(c, s, dx, dy).Ok?
    ensures var t := Reposition(c, s, dx, dy).value;
      t.segments == s.segments ==> s.draft.content <= t.draft.content
    ensures var t := Reposition(c, s, dx, dy).value;
      t.segments != s.segments ==>
        && t.segments == s.segments + [Segment(DropTrailingBoxWrap(s.draft.content), s.draft.origin,
                                               c.outputNames[s.textState.fontName])]
        && t.draft == EmptyDraft
  {
  }

  /** Case 1: a wrap inside a text box appends a box-wrap and does not terminate. */
  lemma MoveBoxWrap(c: Config, s: State, dx: real, dy: real)
    requires dy < 0.0 && Abs(dx + s.draft.xCarry) < c.xTolerance
    ensures Reposition(c, s, dx, dy) == Ok(s.(
      draft := Draft(s.draft.content + [BoxWrap], s.draft.origin, 0.0, s.draft.yCarry + dy),
      displacement := 0.0))
  {
  }

  /** Case 2: returning to the line zeroes both carries and appends comes-before or tab. */
  lemma MoveBackToLine(c: Config, s: State, dx: real, dy: real)
    requires !(dy < 0.0 && Abs(dx + s.draft.xCarry) < c.xTolerance)
    requires dy > 0.0 && Abs(dy + s.draft.yCarry) < c.yTolerance
    ensures Reposition(c, s, dx, dy) == Ok(s.(
      draft := Draft(s.draft.content + [if dx < 0.0 then ComesBefore else Tab], s.draft.origin, 0.0, 0.0),
      displacement := 0.0))
  {
  }

  /** Case 3: otherwise a vertical move of at least the tolerance terminates the segment. */
  lemma MoveNewLine(c: Config, s: State, dx: real, dy: real)
    requires !(dy < 0.0 && Abs(dx + s.draft.xCarry) < c.xTolerance)
    requires !(dy > 0.0 && Abs(dy + s.draft.yCarry) < c.yTolerance)
    requires Abs(dy) >= c.yTolerance
    ensures Reposition(c, s, dx, dy) == Terminate(c, s)
  {
  }

  /** Case 4: a small vertical move leftwards after some content appends comes-before. */
  lemma MoveComesBefore(c: Config, s: State, dx: real, dy: real)
    requires !(dy < 0.0 && Abs(dx + s.draft.xCarry) < c.xTolerance)
    requires !(dy > 0.0 && Abs(dy + s.draft.yCarry) < c.yTolerance)
    requires Abs(dy) < c.yTolerance && dx < 0.0 && s.draft.content != ""
    ensures Reposition(c, s, dx, dy) == Ok(s.(
      draft := s.draft.(content := s.draft.content + [ComesBefore]), displacement := 0.0))
  {
  }

  /**
   * Case 5: a small vertical move rightwards after some content appends a tab
   * exactly when the spacing beyond the shown text exceeds the x tolerance
   * times the font size; otherwise spacing of at least -0.1 is carried into
   * the x translation, and spacing below -0.1 changes nothing but the
   * displacement.
   */
  lemma MoveRight(c: Config, s: State, dx: real, dy: real)
    requires !(dy < 0.0 && Abs(dx + s.draft.xCarry) < c.xTolerance)
    requires !(dy > 0.0 && Abs(dy + s.draft.yCarry) < c.yTolerance)
    requires Abs(dy) < c.yTolerance && dx > 0.0 && s.draft.content != ""
    ensures var spacing := dx - s.displacement;
      var t := Reposition(c, s, dx, dy).value;
      && Reposition(c, s, dx, dy).Ok?
      && t.segments == s.segments && t.displacement == 0.0
      && (t.draft.content == s.draft.content + [Tab] <==> spacing > c.xTolerance * s.textState.size)
      && (OverlapTolerance <= spacing <= c.xTolerance * s.textState.size ==>
            t.draft == s.draft.(xCarry := s.draft.xCarry + dx))
      && (spacing <= c.xTolerance * s.textState.size && spacing < OverlapTolerance ==> t.draft == s.draft)
  {
    var spacing := dx - s.displacement;
    var t := Reposition(c, s, dx, dy).value;
    if spacing > c.xTolerance * s.textState.size {
      assert t.draft.content == s.draft.content + [Tab];
    } else if spacing < OverlapTolerance {
      assert t == s.(displacement := 0.0);
    } else {
      assert t.draft == s.draft.(xCarry := s.draft.xCarry + dx);
      assert |t.draft.content| == |s.draft.content|;
    }
  }

  // =====================================================================
  // Showing glyphs

  /** Showing glyphs or moving never changes the text state or the stack. */
  lemma {:induction false} ShowItemsKeepsFontAndStack(c: Config, s: State, items: seq<ShowItem>)
    requires ShowItems(c, s, items).Ok?
    ensures var t := ShowItems(c, s, items).value;
      && t.textState == s.textState && t.stack == s.stack && t.segments == s.segments
      && t.draft.origin == s.draft.origin
      && t.draft.xCarry == s.draft.xCarry && t.draft.yCarry == s.draft.yCarry
      && |t.draft.content| >= |s.draft.content| && t.draft.content[..|s.draft.content|] == s.draft.content
    decreases |items|
  {
    if items != [] {
      var t1 := ShowElement(c, s, items[0]).value;
      ShowItemsKeepsFontAndStack(c, t1, items[1..]);
    }
  }

  /** A `TJ` array split in two is shown as its first part and then its second. */
  lemma {:induction false} ShowItemsConcat(c: Config, s: State, a: seq<ShowItem>, b: seq<ShowItem>)
    ensures ShowItems(c, s, a + b) ==
      (match ShowItems(c, s, a) case Ok(t) => ShowItems(c, t, b) case Err(e) => Err(e))
    decreases |a|
  {
    if a == [] {
      assert a + b == b;
    } else {
      assert (a + b)[0] == a[0];
      assert (a + b)[1..] == a[1..] + b;
      match ShowElement(c, s, a[0])
      case Ok(t1) => ShowItemsConcat(c, t1, a[1..], b);
      case Err(e) =>
    }
  }

  /** `Tj` is the one-string case of `TJ`. */
  lemma ShowIsSingleSpacedShow(c: Config, s: State, bs: seq<byte>, at: Point)
    ensures Step(c, s, Show(bs, at)) == Step(c, s, ShowSpaced([Glyphs(bs)], at))
  {
    var s' := WithOrigin(s, at);
    match ShowGlyphs(c, s', bs)
    case Ok(t) =>
      assert [Glyphs(bs)][1..] == [];
      assert ShowItems(c, s', [Glyphs(bs)]) == ShowItems(c, t, []);
    case Err(e) =>
  }

  /**
   * Two adjacent byte strings of a `TJ` array have the effect of their
   * concatenation shown at once: the texts are appended in order and the
   * widths add up.
   */
  lemma AdjacentGlyphsMerge(c: Config, s: State, a: seq<byte>, b: seq<byte>, at: Point)
    requires s.textState.fontName in c.fonts
    requires Decodable(c.fonts[s.textState.fontName], a) && Decodable(c.fonts[s.textState.fontName], b)
    ensures Step(c, s, ShowSpaced([Glyphs(a), Glyphs(b)], at)) == Step(c, s, Show(a + b, at))
  {
    var s0 := WithOrigin(s, at);
    ShowPair(c, s0, a, b);
    ShowGlyphsTwice(c, s0, a, b);
  }

  /** A `TJ` array of two byte strings shows one and then the other. */
  lemma ShowPair(c: Config, s: State, a: seq<byte>, b: seq<byte>)
    requires s.textState.fontName in c.fonts
    requires Decodable(c.fonts[s.textState.fontName], a)
    ensures ShowGlyphs(c, s, a).Ok?
    ensures ShowItems(c, s, [Glyphs(a), Glyphs(b)]) == ShowGlyphs(c, ShowGlyphs(c, s, a).value, b)
  {
    var s1 := ShowGlyphs(c, s, a).value;
    assert [Glyphs(a), Glyphs(b)][1..] == [Glyphs(b)];
    assert [Glyphs(b)][1..] == [];
    assert ShowItems(c, s, [Glyphs(a), Glyphs(b)]) == ShowItems(c, s1, [Glyphs(b)]);
    match ShowGlyphs(c, s1, b)
    case Ok(s2) =>
      assert ShowItems(c, s1, [Glyphs(b)]) == ShowItems(c, s2, []);
    case Err(e) =>
  }

  /** Showing two byte strings one after the other shows their concatenation. */
  lemma ShowGlyphsTwice(c: Config, s: State, a: seq<byte>, b: seq<byte>)
    requires s.textState.fontName in c.fonts
    requires Decodable(c.fonts[s.textState.fontName], a) && Decodable(c.fonts[s.textState.fontName], b)
    ensures ShowGlyphs(c, s, a).Ok?
    ensures ShowGlyphs(c, ShowGlyphs(c, s, a).value, b) == ShowGlyphs(c, s, a + b)
  {
    DecodeConcat(c.fonts[s.textState.fontName], a, b);
    var s2 := ShowGlyphs(c, ShowGlyphs(c, s, a).value, b).value;
    var s3 := ShowGlyphs(c, s, a + b).value;
    TwiceSameDraft(c, s, a, b);
    TwiceSameDisplacement(c, s, a, b);
    assert s2.textState == s3.textState && s2.stack == s3.stack && s2.segments == s3.segments;
  }

  lemma TwiceSameDraft(c: Config, s: State, a: seq<byte>, b: seq<byte>)
    requires s.textState.fontName in c.fonts
    requires Decodable(c.fonts[s.textState.fontName], a) && Decodable(c.fonts[s.textState.fontName], b)
    ensures ShowGlyphs(c, s, a).Ok? && ShowGlyphs(c, ShowGlyphs(c, s, a).value, b).Ok?
    ensures ShowGlyphs(c, s, a + b).Ok?
    ensures ShowGlyphs(c, ShowGlyphs(c, s, a).value, b).value.draft == ShowGlyphs(c, s, a + b).value.draft
  {
    var f := c.fonts[s.textState.fontName];
    DecodeConcat(f, a, b);
    assert s.draft.content + DecodedText(f, a) + DecodedText(f, b) == s.draft.content + DecodedText(f, a + b);
  }

  lemma TwiceSameDisplacement(c: Config, s: State, a: seq<byte>, b: seq<byte>)
    requires s.textState.fontName in c.fonts
    requires Decodable(c.fonts[s.textState.fontName], a) && Decodable(c.fonts[s.textState.fontName], b)
    ensures ShowGlyphs(c, s, a).Ok? && ShowGlyphs(c, ShowGlyphs(c, s, a).value, b).Ok?
    ensures ShowGlyphs(c, s, a + b).Ok?
    ensures ShowGlyphs(c, ShowGlyphs(c, s, a).value, b).value.displacement
      == ShowGlyphs(c, s, a + b).value.displacement
  {
    var f := c.fonts[s.textState.fontName];
    DecodeConcat(f, a, b);
    var size := s.textState.size;
    var wa, wb := TotalWidth(f, a) as real, TotalWidth(f, b) as real;
    var s1 := ShowGlyphs(c, s, a).value;
    assert s1.textState == s.textState;
    assert s1.displacement == s.displacement + wa / 1000.0 * size;
    assert ShowGlyphs(c, s1, b).value.displacement == s1.displacement + wb / 1000.0 * size;
    assert TotalWidth(f, a + b) as real == wa + wb;
    ScaledWidthsAdd(s.displacement, wa, wb, size);
  }

  lemma ScaledWidthsAdd(d: real, wa: real, wb: real, size: real)
    ensures d + wa / 1000.0 * size + wb / 1000.0 * size == d + (wa + wb) / 1000.0 * size
  {
  }

  /**
   * The origin is set by the first `Tj`/`TJ` of a segment and is never
   * overwritten: an operator that keeps the segment keeps its origin.
   */
  lemma OriginFrozen(c: Config, s: State, op: Op)
    requires Step(c, s, op).Ok?
    ensures var t := Step(c, s, op).value;
      && ((op.Show? || op.ShowSpaced?) && s.draft.origin.None? ==> t.draft.origin == Some(op.at))
      && (s.draft.origin.Some? ==> t.draft.origin == s.draft.origin || t.draft == EmptyDraft)
  {
    if op.ShowSpaced? {
      ShowItemsKeepsFontAndStack(c, WithOrigin(s, op.at), op.items);
    }
  }

  // =====================================================================
  // The stack of text states

  /** Net number of states a list of operators pushes. */
  function Depth(ops: seq<Op>): int {
    if ops == [] then 0
    else (if ops[0].SaveState? then 1 else if ops[0].RestoreState? then -1 else 0) + Depth(ops[1..])
  }

  /** Every `Q` pops a state pushed by an earlier `q` of the same list, and all are popped. */
  predicate Balanced(ops: seq<Op>) {
    Depth(ops) == 0 && forall k :: 0 <= k <= |ops| ==> Depth(ops[..k]) >= 0
  }

  lemma StepStack(c: Config, s: State, op: Op)
    requires Step(c, s, op).Ok?
    ensures var t := Step(c, s, op).value;
      && (op.SaveState? ==> t.stack == s.stack + [s.textState])
      && (op.RestoreState? ==> |s.stack| > 0 && t.stack == s.stack[..|s.stack| - 1]
                               && t.textState == s.stack[|s.stack| - 1])
      && (!op.SaveState? && !op.RestoreState? ==> t.stack == s.stack)
  {
    match op
    case ShowSpaced(items, at) => ShowItemsKeepsFontAndStack(c, WithOrigin(s, at), items);
    case _ =>
  }

  lemma {:induction false} RunConcat(c: Config, s: State, a: seq<Op>, b: seq<Op>)
    ensures Run(c, s, a + b) == (match Run(c, s, a) case Ok(t) => Run(c, t, b) case Err(e) => Err(e))
    decreases |a|
  {
    if a == [] {
      assert a + b == b;
    } else {
      assert (a + b)[0] == a[0];
      assert (a + b)[1..] == a[1..] + b;
      match Step(c, s, a[0])
      case Ok(t1) => RunConcat(c, t1, a[1..], b);
      case Err(e) =>
    }
  }

  /**
   * Operators that never pop below the bottom `n` states of the stack leave
   * those states untouched, and change the stack height by their depth.
   */
  lemma {:induction false} RunKeepsStackBottom(c: Config, s: State, ops: seq<Op>, n: nat)
    requires n <= |s.stack|
    requires forall k :: 0 <= k <= |ops| ==> |s.stack| + Depth(ops[..k]) >= n
    requires |s.stack| + Depth(ops) >= n
    requires Run(c, s, ops).Ok?
    ensures |Run(c, s, ops).value.stack| == |s.stack| + Depth(ops)
    ensures Run(c, s, ops).value.stack[..n] == s.stack[..n]
    decreases |ops|
  {
    if ops != [] {
      var t := Step(c, s, ops[0]).value;
      StepStack(c, s, ops[0]);
      assert ops[..1] == [ops[0]];
      assert Depth(ops[..1]) == Depth([ops[0]]);
      assert |t.stack| == |s.stack| + Depth([ops[0]]);
      forall k | 0 <= k <= |ops[1..]|
        ensures |t.stack| + Depth(ops[1..][..k]) >= n
      {
        assert ops[..k + 1][0] == ops[0];
        assert ops[..k + 1][1..] == ops[1..][..k];
        assert |s.stack| + Depth(ops[..k + 1]) >= n;
      }
      RunKeepsStackBottom(c, t, ops[1..], n);
    }
  }

  /**
   * A `q ... Q` pair around balanced operators restores the font and size in
   * force before the `q`, and the stack as it was.
   */
  lemma SaveRestoreRoundTrip(c: Config, s: State, ops: seq<Op>)
    requires Balanced(ops)
    requires Run(c, s, [SaveState] + ops + [RestoreState]).Ok?
    ensures Run(c, s, [SaveState] + ops + [RestoreState]).value.textState == s.textState
    ensures Run(c, s, [SaveState] + ops + [RestoreState]).value.stack == s.stack
  {
    var s1 := s.(stack := s.stack + [s.textState]);
    assert Step(c, s, SaveState) == Ok(s1);
    RunConcat(c, s, [SaveState], ops + [RestoreState]);
    assert [SaveState] + ops + [RestoreState] == [SaveState] + (ops + [RestoreState]);
    assert Run(c, s, [SaveState]) == Run(c, s1, []);
    RunConcat(c, s1, ops, [RestoreState]);
    var s2 := Run(c, s1, ops).value;
    RunKeepsStackBottom(c, s1, ops, |s1.stack|);
    assert s2.stack == s1.stack by {
      assert |s2.stack| == |s1.stack|;
      assert s2.stack[..|s1.stack|] == s1.stack[..|s1.stack|];
    }
    StepStack(c, s2, RestoreState);
    assert s1.stack[..|s1.stack| - 1] == s.stack;
  }
}
