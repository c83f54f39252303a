/**
 * The leaf visitors: the value each one makes of the text of its node.
 * Strings are stripped (and, in a court summary, freed of box-wrap
 * markers), dates are read month/day/year, money amounts are read as
 * `$` amounts or parenthesised negative amounts.
 */
module Leaves {
  import opened Wrappers
  import opened Markers
  import opened Text
  import opened Numerals
  import opened Values

  // =====================================================================
  // Strings

  /** A court-summary string leaf: the stripped text with every box wrap removed. */
  function SummaryString(text: string): (r: string)
    ensures BoxWrap !in r
  {
    RemoveChar(Strip(text), BoxWrap)
  }

  /**
   * A value that the extractor split over two text boxes comes back as
   * the two pieces run together.
   */
  lemma SummaryStringJoinsBoxes(a: string, b: string)
    requires BoxWrap !in a && BoxWrap !in b
    requires a != [] && !IsSpace(a[0]) && b != [] && !IsSpace(b[|b| - 1])
    ensures SummaryString(a + [BoxWrap] + b) == a + b
  {
    var t := a + [BoxWrap] + b;
    assert t[0] == a[0] && t[|t| - 1] == b[|b| - 1];
    StripUnchanged(t);
    RemoveCharAppend(a + [BoxWrap], b, BoxWrap);
    RemoveCharAppend(a, [BoxWrap], BoxWrap);
    RemoveAbsentChar(a, BoxWrap);
    RemoveAbsentChar(b, BoxWrap);
    assert RemoveChar([BoxWrap], BoxWrap) == [];
  }

  /** Text without box wraps is only stripped, as in a docket. */
  lemma SummaryStringWithoutBoxes(text: string)
    requires BoxWrap !in text
    ensures SummaryString(text) == Strip(text)
  {
    StripPiece(text);
    RemoveAbsentChar(Strip(text), BoxWrap);
  }

  /**
   * The court-summary aliases: the stripped text split at box wraps, the
   * last piece dropped when it mentions "WARRANT".
   */
  function SummaryAliases(text: string): (r: seq<string>)
    ensures forall i :: 0 <= i < |r| ==> BoxWrap !in r[i]
  {
    var aliases := Split(Strip(text), BoxWrap);
    if Contains(aliases[|aliases| - 1], "WARRANT") then aliases[..|aliases| - 1] else aliases
  }

  /** The aliases of text that needs no stripping, from the pieces between its box wraps. */
  lemma AliasesOfPieces(text: string, pieces: seq<string>)
    requires Strip(text) == text && Split(text, BoxWrap) == pieces
    ensures !Contains(pieces[|pieces| - 1], "WARRANT") ==> SummaryAliases(text) == pieces
    ensures Contains(pieces[|pieces| - 1], "WARRANT") ==> SummaryAliases(text) == pieces[..|pieces| - 1]
  {
  }

  /**
   * Names joined by box wraps come back as the names; a trailing piece
   * that mentions "WARRANT" is dropped.
   */
  lemma SummaryAliasesOfNames(names: seq<string>, warrant: string)
    requires |names| >= 1 && !Contains(names[|names| - 1], "WARRANT")
    requires forall i :: 0 <= i < |names| ==> BoxWrap !in names[i]
    requires BoxWrap !in warrant && Contains(warrant, "WARRANT")
    requires Strip(Join(names, BoxWrap)) == Join(names, BoxWrap)
    requires Strip(Join(names + [warrant], BoxWrap)) == Join(names + [warrant], BoxWrap)
    ensures SummaryAliases(Join(names, BoxWrap)) == names
    ensures SummaryAliases(Join(names + [warrant], BoxWrap)) == names
  {
    SplitJoin(names, BoxWrap);
    AliasesOfPieces(Join(names, BoxWrap), names);
    AliasesDropWarrant(names, warrant);
  }

  lemma AliasesDropWarrant(names: seq<string>, warrant: string)
    requires forall i :: 0 <= i < |names| ==> BoxWrap !in names[i]
    requires BoxWrap !in warrant && Contains(warrant, "WARRANT")
    requires Strip(Join(names + [warrant], BoxWrap)) == Join(names + [warrant], BoxWrap)
    ensures SummaryAliases(Join(names + [warrant], BoxWrap)) == names
  {
    var all := names + [warrant];
    AppendedAvoids(names, warrant);
    SplitJoin(all, BoxWrap);
    assert all[..|all| - 1] == names && all[|all| - 1] == warrant;
    AliasesOfPieces(Join(all, BoxWrap), all);
  }

  lemma AppendedAvoids(names: seq<string>, warrant: string)
    requires forall i :: 0 <= i < |names| ==> BoxWrap !in names[i]
    requires BoxWrap !in warrant
    ensures forall i :: 0 <= i < |names + [warrant]| ==> BoxWrap !in (names + [warrant])[i]
  {
    var all := names + [warrant];
    forall i | 0 <= i < |all|
      ensures BoxWrap !in all[i]
    {
      if i < |names| {
        assert all[i] == names[i];
      }
    }
  }

  // =====================================================================
  // Dates

  predicate IsLeapYear(year: int) {
    year % 4 == 0 && (year % 100 != 0 || year % 400 == 0)
  }

  function DaysInMonth(year: int, month: int): int
    requires 1 <= month <= 12
  {
    if month == 2 then (if IsLeapYear(year) then 29 else 28)
    else if month == 4 || month == 6 || month == 9 || month == 11 then 30
    else 31
  }

  /** What `datetime.date` accepts: years 1 to 9999 and a day the month has. */
  predicate ValidDate(d: Date) {
    && 1 <= d.year <= 9999
    && 1 <= d.month <= 12
    && 1 <= d.day <= DaysInMonth(d.year, d.month)
  }

  /** What fits the C `int` that `datetime.date` takes each field as: 32 bits, signed. */
  predicate FitsCInt(n: int) {
    -0x8000_0000 <= n < 0x8000_0000
  }

  /**
   * A date leaf: the stripped text must be three numbers separated by
   * slashes, month first, forming a date that exists. A field too large
   * for a C `int` raises `OverflowError`; anything else wrong raises
   * `ValueError`.
   */
  function ParseDate(text: string): (r: Result<Date, Raised>)
    ensures r.Ok? ==> ValidDate(r.value)
    ensures r.Err? ==> r.error == ValueError || r.error == OverflowError
  {
    var parts := Split(Strip(text), '/');
    if |parts| != 3 then Err(ValueError)
    else
      match (ParseInt(parts[2]), ParseInt(parts[0]), ParseInt(parts[1]))
      case (Some(year), Some(month), Some(day)) => MakeDate(year, month, day)
      case _ => Err(ValueError)
  }

  /** `datetime.date(year, month, day)`. */
  function MakeDate(year: int, month: int, day: int): (r: Result<Date, Raised>)
    ensures r.Ok? <==> ValidDate(Date(year, month, day))
    ensures r.Ok? ==> r.value == Date(year, month, day)
    ensures r.Err? ==> (r.error == OverflowError <==> !(FitsCInt(year) && FitsCInt(month) && FitsCInt(day)))
    ensures r.Err? ==> r.error == ValueError || r.error == OverflowError
  {
    if !FitsCInt(year) || !FitsCInt(month) || !FitsCInt(day) then Err(OverflowError)
    else
      var d := Date(year, month, day);
      if ValidDate(d) then Ok(d) else Err(ValueError)
  }

  /** A date as the documents print it: two-digit month and day, then the year. */
  function FormatDate(month: nat, day: nat, year: nat): (r: string)
    requires month < 100 && day < 100
    ensures |r| >= 7 && r[2] == '/' && r[5] == '/'
  {
    TwoDigits(month) + "/" + TwoDigits(day) + "/" + NatToDigits(year)
  }

  lemma NoSlashInDigits(s: string)
    requires AllDigits(s)
    ensures '/' !in s
  {
  }

  /**
   * Printed numerals are read back as the date they name when it exists;
   * a year too large for a C `int` is refused with `OverflowError`, any
   * other date that does not exist with `ValueError`.
   */
  lemma ParseFormattedDate(month: nat, day: nat, year: nat)
    requires month < 100 && day < 100
    ensures ValidDate(Date(year, month, day)) ==> ParseDate(FormatDate(month, day, year)) == Ok(Date(year, month, day))
    ensures !ValidDate(Date(year, month, day)) && FitsCInt(year) ==> ParseDate(FormatDate(month, day, year)) == Err(ValueError)
    ensures !FitsCInt(year) ==> ParseDate(FormatDate(month, day, year)) == Err(OverflowError)
  {
    var m := TwoDigits(month);
    var d := TwoDigits(day);
    var y := NatToDigits(year);
    FormattedDatePieces(month, day, year);
    ParseIntNumeral(m);
    ParseIntNumeral(d);
    ParseIntNumeral(y);
    assert ParseDate(FormatDate(month, day, year)) == MakeDate(year, month, day);
  }

  /** A printed date needs no stripping and splits at its slashes into its three numerals. */
  lemma FormattedDatePieces(month: nat, day: nat, year: nat)
    requires month < 100 && day < 100
    ensures Split(Strip(FormatDate(month, day, year)), '/')
      == [TwoDigits(month), TwoDigits(day), NatToDigits(year)]
  {
    var m := TwoDigits(month);
    var d := TwoDigits(day);
    var y := NatToDigits(year);
    var t := FormatDate(month, day, year);
    assert t == m + ['/'] + (d + ['/'] + y);
    assert t[0] == m[0] && t[|t| - 1] == y[|y| - 1];
    assert !IsSpace(t[0]) && !IsSpace(t[|t| - 1]);
    StripUnchanged(t);
    NoSlashInDigits(m);
    NoSlashInDigits(d);
    NoSlashInDigits(y);
    SplitAtSeparator(m, d + ['/'] + y, '/');
    SplitAtSeparator(d, y, '/');
    SplitWithoutSeparator(y, '/');
  }

  /** `datetime.date` rejects February 29 outside leap years. */
  lemma LeapDay()
    ensures ParseDate(FormatDate(2, 29, 2020)) == Ok(Date(2020, 2, 29))
    ensures ParseDate(FormatDate(2, 29, 2021)) == Err(ValueError)
    ensures ParseDate(FormatDate(2, 29, 1900)) == Err(ValueError)
  {
    assert ValidDate(Date(2020, 2, 29));
    assert !ValidDate(Date(2021, 2, 29)) && !ValidDate(Date(1900, 2, 29));
    ParseFormattedDate(2, 29, 2020);
    ParseFormattedDate(2, 29, 2021);
    ParseFormattedDate(2, 29, 1900);
  }

  /** An eleven-digit year does not fit a C `int`: `OverflowError`, not `ValueError`. */
  lemma YearOverflow()
    ensures ParseDate(FormatDate(1, 1, 99999999999)) == Err(OverflowError)
  {
    ParseFormattedDate(1, 1, 99999999999);
  }

  // =====================================================================
  // Money

  /** Python's `float(text)` on decimal text; anything else raises `ValueError`. */
  function FloatOf(text: string): (r: Result<real, Raised>)
    ensures r.Err? ==> r.error == ValueError
    ensures r.Ok? <==> ParseDecimal(text).Some?
  {
    match ParseDecimal(text)
    case Some(v) => Ok(v)
    case None => Err(ValueError)
  }

  /**
   * A money leaf: the stripped text without commas must start with `$`
   * (the rest is the amount) or `(` (the text between its second and its
   * last character is the amount, negated). Empty text raises
   * `IndexError`, any other first character `ParseError`.
   */
  function ParseMoney(text: string): Result<real, Raised> {
    MoneyOf(RemoveChar(Strip(text), ','))
  }

  /** The money leaf once the text is stripped and its commas removed. */
  function MoneyOf(money: string): (r: Result<real, Raised>)
    ensures r == Err(IndexError) <==> money == []
    ensures r == Err(ParseError) <==> money != [] && money[0] != '$' && money[0] != '('
  {
    if money == [] then Err(IndexError)
    else if money[0] == '$' then FloatOf(money[1..])
    else if money[0] == '(' then Negated(FloatOf(if |money| >= 3 then money[2..|money| - 1] else ""))
    else Err(ParseError)
  }

  /** `-float(...)`: the amount negated, the error passed on. */
  function Negated(r: Result<real, Raised>): (n: Result<real, Raised>)
    ensures n.Ok? <==> r.Ok?
    ensures n.Ok? ==> n.value == -r.value
    ensures n.Err? ==> n.error == r.error
  {
    match r
    case Ok(v) => Ok(-v)
    case Err(e) => Err(e)
  }

  /** Text that needs no stripping and has no commas is read as it is. */
  lemma MoneyOfPlain(t: string)
    requires t != [] && !IsSpace(t[0]) && !IsSpace(t[|t| - 1]) && ',' !in t
    ensures ParseMoney(t) == MoneyOf(t)
  {
    StripUnchanged(t);
    RemoveAbsentChar(t, ',');
  }

  /** A `$` amount is read as the float of what follows the sign. */
  lemma MoneyDollars(u: string)
    requires ',' !in u && u != [] && !IsSpace(u[|u| - 1])
    ensures ParseMoney("$" + u) == FloatOf(u)
  {
    var t := "$" + u;
    assert t[|t| - 1] == u[|u| - 1] && t[0] == '$';
    MoneyOfPlain(t);
    assert t[1..] == u;
  }

  /**
   * A parenthesised amount is read as the negated float of what lies
   * between its second and its last character; the second character is
   * not checked to be `$`.
   */
  lemma MoneyParentheses(c: char, u: string)
    requires c != ',' && ',' !in u
    ensures ParseMoney("(" + [c] + u + ")") == Negated(FloatOf(u))
  {
    var t := "(" + [c] + u + ")";
    assert t == ['(', c] + u + [')'];
    assert t[0] == '(' && t[|t| - 1] == ')';
    assert t[2..|t| - 1] == u;
    assert ',' !in t;
    MoneyOfPlain(t);
  }

  /** `($x)` is the negation of `$x`, and both are refused together. */
  lemma MoneyParenthesesNegate(u: string)
    requires ',' !in u && u != [] && !IsSpace(u[|u| - 1])
    ensures ParseMoney("($" + u + ")") == Negated(ParseMoney("$" + u))
  {
    var t := "($" + u + ")";
    assert t == "(" + ['$'] + u + ")";
    MoneyParentheses('$', u);
    assert ParseMoney(t) == Negated(FloatOf(u));
    MoneyDollars(u);
  }

  /**
   * Amount text that needs no stripping and holds no commas: `$x` is its
   * float and `($x)` the negated float.
   */
  lemma MoneySigns(u: string, v: real)
    requires ',' !in u && u != [] && !IsSpace(u[|u| - 1]) && FloatOf(u) == Ok(v)
    ensures ParseMoney("$" + u) == Ok(v) && ParseMoney("($" + u + ")") == Ok(-v)
  {
    MoneyDollars(u);
    MoneyParenthesesNegate(u);
    Chain(ParseMoney("$" + u), ParseMoney("($" + u + ")"), FloatOf(u), v);
  }

  lemma Chain(a: Result<real, Raised>, b: Result<real, Raised>, f: Result<real, Raised>, v: real)
    requires a == f && b == Negated(a) && f == Ok(v)
    ensures a == Ok(v) && b == Ok(-v)
  {
  }

  /** Dollars, a point and two-digit cents are read as dollars plus hundredths. */
  lemma CentsFloat(whole: string, cents: string)
    requires whole != [] && AllDigits(whole) && |cents| == 2 && AllDigits(cents)
    ensures FloatOf(whole + "." + cents) == Ok(DigitsValue(whole) as real + DigitsValue(cents) as real / 100.0)
  {
    DecimalHundredths(whole, cents);
    FloatOfDecimal(whole + "." + cents, ParseDecimal(whole + "." + cents));
  }

  lemma FloatOfDecimal(u: string, o: Option<real>)
    requires ParseDecimal(u) == o && o.Some?
    ensures FloatOf(u) == Ok(o.value)
  {
  }
}
