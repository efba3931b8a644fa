/** The figures a narrative may refer to, and the one place they become text. */
module Values {
  import opened Wrappers
  import opened Numeric
  import opened Text
  import opened Format

  /** A value that reached the renderer without a kind is NoKind, and renders as nothing but an error. */
  datatype Kind = NoKind | Percent | SignedPercent | Ratio | Index | Money | Quantity | Count | Date | SymbolName

  /** num holds every numeric kind, text the dates and the symbols. */
  datatype Value = Value(kind: Kind, num: real, text: string)

  type Vocabulary = map<string, Value>

  function Num(kind: Kind, n: real): Value { Value(kind, n, "") }
  function Txt(kind: Kind, s: string): Value { Value(kind, 0.0, s) }

  datatype FormatError = NotADate(text: string) | HasNoKind

  // ---- dates

  datatype CalendarDate = CalendarDate(year: nat, month: nat, day: nat)

  predicate LeapYear(y: nat) { y % 4 == 0 && (y % 100 != 0 || y % 400 == 0) }

  function DaysIn(y: nat, m: nat): nat {
    if m == 2 then (if LeapYear(y) then 29 else 28) else if m == 4 || m == 6 || m == 9 || m == 11 then 30 else 31
  }

  function TwoDigits(a: char, b: char): nat
    requires IsDigit(a) && IsDigit(b)
  {
    DigitValue(a) * 10 + DigitValue(b)
  }

  /** Parsing 2006-01-02: fixed width, and only days the calendar has. */
  function ParseDate(s: string): Option<CalendarDate> {
    if |s| == 10 && s[4] == '-' && s[7] == '-' && IsDigit(s[0]) && IsDigit(s[1]) && IsDigit(s[2]) && IsDigit(s[3])
       && IsDigit(s[5]) && IsDigit(s[6]) && IsDigit(s[8]) && IsDigit(s[9])
    then
      var d := CalendarDate(TwoDigits(s[0], s[1]) * 100 + TwoDigits(s[2], s[3]), TwoDigits(s[5], s[6]), TwoDigits(s[8], s[9]));
      if 1 <= d.month <= 12 && 1 <= d.day <= DaysIn(d.year, d.month) then Some(d) else None
    else None
  }

  function DateText(d: CalendarDate): string {
    Digits(d.month) + "/" + Digits(d.day) + "/" + Digits(d.year)
  }

  // ---- one value

  function Places(kind: Kind): nat {
    match kind
    case Percent => 1
    case SignedPercent => 1
    case Ratio => 2
    case Index => 3
    case Money => 2
    case Quantity => 4
    case _ => 0
  }

  predicate IsNumeric(kind: Kind) {
    kind != NoKind && kind != Date && kind != SymbolName
  }

  function FormatOf(v: Value): Result<string, FormatError> {
    var decimal := Decimal(v.num, Places(v.kind));
    match v.kind
    case Percent => Ok(decimal + "%")
    case SignedPercent => Ok((if v.num > 0.0 then "+" + decimal else decimal) + "%")
    case Ratio => Ok(decimal)
    case Index => Ok(decimal)
    case Money => Ok(GroupedText(decimal))
    case Quantity => Ok(GroupedText(Trimmed(decimal)))
    case Count => Ok(GroupedText(decimal))
    case Date => (match ParseDate(v.text) case Some(d) => Ok(DateText(d)) case None => Err(NotADate(v.text)))
    case SymbolName => Ok(v.text)
    case NoKind => Err(HasNoKind)
  }

  /** One value as text. It fails only for a date that is none and for no kind; a figure says the value's sign and its
      digits at the kind's places; a date reads back to the day it names; a symbol is itself. */
  method FormatValue(v: Value) returns (r: Result<string, FormatError>)
    ensures r == FormatOf(v)
    ensures r.Err? <==> v.kind == NoKind || (v.kind == Date && ParseDate(v.text).None?)
    ensures IsNumeric(v.kind) ==> Says(Bare(v.kind, r.value), v.num, Places(v.kind))
    ensures v.kind == Date && r.Ok? ==> ReadDate(r.value) == ParseDate(v.text)
    ensures v.kind == SymbolName ==> r == Ok(v.text)
  {
    hide Decimal, Trimmed, GroupedText, DateText, ParseDate, Says, Bare, ReadDate;
    if IsNumeric(v.kind) {
      FigureReadsBack(v);
    } else if v.kind == Date && ParseDate(v.text).Some? {
      DateReadsBack(v);
    }
    var decimal := Decimal(v.num, Places(v.kind));
    match v.kind
    case Percent => return Ok(decimal + "%");
    case SignedPercent =>
      if v.num > 0.0 {
        decimal := "+" + decimal;
      }
      return Ok(decimal + "%");
    case Ratio => return Ok(decimal);
    case Index => return Ok(decimal);
    case Money =>
      var grouped := Group(decimal);
      return Ok(grouped);
    case Quantity =>
      var grouped := Group(Trimmed(decimal));
      return Ok(grouped);
    case Count =>
      var grouped := Group(decimal);
      return Ok(grouped);
    case Date =>
      var d := ParseDate(v.text);
      return if d.Some? then Ok(DateText(d.value)) else Err(NotADate(v.text));
    case SymbolName => return Ok(v.text);
    case NoKind => return Err(HasNoKind);
  }

  // ---- reading it back

  /** A rendered figure without what the renderer put around it: the plus, the percent sign, the separators. */
  function Bare(kind: Kind, s: string): string {
    match kind
    case Percent => if s == "" then "" else s[..|s| - 1]
    case SignedPercent =>
      var t := if s == "" then "" else s[..|s| - 1];
      if t != "" && t[0] == '+' then t[1..] else t
    case Money => WithoutCommas(s)
    case Quantity => WithoutCommas(s)
    case Count => WithoutCommas(s)
    case _ => s
  }

  /** Some writing of the figure: its sign, its whole digits, and at most places digits after the point. */
  ghost predicate Says(s: string, v: real, places: nat) {
    exists whole, frac ::
      IsFigure(s, Sign(v), whole, frac) && |frac| <= places && ReadMagnitude(whole, frac, places) == Scaled(v, places)
  }

  lemma DecimalSays(v: real, places: nat)
    ensures Says(Decimal(v, places), v, places)
  {
    DecimalReadsBack(v, places);
  }

  lemma GroupedSays(s: string, v: real, places: nat)
    requires Says(s, v, places)
    ensures WithoutCommas(GroupedText(s)) == s
  {
    var whole, frac :| IsFigure(s, Sign(v), whole, frac);
    GroupingReadsBack(s, Sign(v), whole, frac);
  }

  lemma TrimmedSays(v: real, places: nat)
    requires places > 0
    ensures Says(Trimmed(Decimal(v, places)), v, places)
  {
    hide Decimal, Scaled, Trimmed;
    DecimalReadsBack(v, places);
    var n := Scaled(v, places);
    TrimmingReadsBack(Decimal(v, places), Sign(v), Digits(Dropped(n, places)), Padded(n, places), places);
  }

  /** The figure on the page is the figure in the report: whatever the kind, taking off what the renderer added leaves
      the value's sign and its digits, rounded halfway away from zero at the kind's places. */
  lemma FigureReadsBack(v: Value)
    requires IsNumeric(v.kind)
    ensures FormatOf(v).Ok? && Says(Bare(v.kind, FormatOf(v).value), v.num, Places(v.kind))
  {
    hide Says, Decimal, Trimmed, GroupedText, WithoutCommas;
    var decimal := Decimal(v.num, Places(v.kind));
    DecimalSays(v.num, Places(v.kind));
    match v.kind
    case SignedPercent => SignedReadsBack(v);
    case Money => GroupedSays(decimal, v.num, 2);
    case Quantity =>
      TrimmedSays(v.num, 4);
      GroupedSays(Trimmed(decimal), v.num, 4);
    case Count => GroupedSays(decimal, v.num, 0);
    case Percent => assert (decimal + "%")[..|decimal|] == decimal;
    case Ratio =>
    case Index =>
  }

  lemma SignedReadsBack(v: Value)
    requires v.kind == SignedPercent
    ensures FormatOf(v).Ok? && Bare(SignedPercent, FormatOf(v).value) == Decimal(v.num, 1)
  {
    var decimal := Decimal(v.num, 1);
    var shown := if v.num > 0.0 then "+" + decimal else decimal;
    assert (shown + "%")[..|shown|] == shown;
    assert ("+" + decimal)[1..] == decimal;
    DecimalStart(v.num, 1);
  }

  lemma DecimalStart(v: real, places: nat)
    ensures Decimal(v, places) != "" && (Decimal(v, places)[0] == '-' || IsDigit(Decimal(v, places)[0]))
  {
    hide Digits, Padded, Scaled;
  }

  // ---- and what it looks like

  /** Exactly so many digits after the point, none and no point at none. */
  ghost predicate Exactly(s: string, v: real, places: nat) {
    exists whole, frac ::
      IsFigure(s, Sign(v), whole, frac) && |frac| == places && ReadMagnitude(whole, frac, places) == Scaled(v, places)
  }

  lemma DecimalIsExact(v: real, places: nat)
    ensures Exactly(Decimal(v, places), v, places)
  {
    DecimalReadsBack(v, places);
  }

  lemma GroupedExactly(s: string, v: real, places: nat)
    requires Exactly(s, v, places)
    ensures WithoutCommas(GroupedText(s)) == s
  {
    var whole, frac :| IsFigure(s, Sign(v), whole, frac);
    GroupingReadsBack(s, Sign(v), whole, frac);
  }

  /** How each kind is written: percentages to one place with their sign after them, a signed one with a plus exactly
      where it is above zero; ratios to two places and indices to three; with their separators out, money to two, counts
      to none and quantities to at most four; a symbol as it is. */
  lemma ShownAs(v: Value)
    requires v.kind != NoKind && v.kind != Date
    ensures FormatOf(v).Ok?
    ensures var text := FormatOf(v).value;
            match v.kind
            case Percent => exists s :: text == s + "%" && Exactly(s, v.num, 1)
            case SignedPercent =>
              exists s :: text == (if v.num > 0.0 then "+" + s else s) + "%" && Exactly(s, v.num, 1)
            case Ratio => Exactly(text, v.num, 2)
            case Index => Exactly(text, v.num, 3)
            case Money => Exactly(WithoutCommas(text), v.num, 2)
            case Count => Exactly(WithoutCommas(text), v.num, 0)
            case Quantity => Says(WithoutCommas(text), v.num, 4)
            case SymbolName => text == v.text
            case _ => true
  {
    hide Exactly, Says, Decimal, Trimmed, GroupedText, WithoutCommas;
    var places := Places(v.kind);
    var decimal := Decimal(v.num, places);
    DecimalIsExact(v.num, places);
    match v.kind
    case Money => GroupedExactly(decimal, v.num, 2);
    case Count => GroupedExactly(decimal, v.num, 0);
    case Quantity => FigureReadsBack(v);
    case _ =>
  }

  // ---- a date reads back too

  /** A number as a reader writes it. */
  ghost predicate Unpadded(s: string) {
    AllDigits(s) && s != "" && (s[0] == '0' ==> |s| == 1)
  }

  /** What comes before the first slash and what comes after it. */
  function Cut(s: string): Option<(string, string)> {
    var i := IndexOf(s, '/');
    if i.None? then None else Some((s[..i.value], s[i.value + 1..]))
  }

  lemma CutsAtSlash(a: string, b: string)
    requires '/' !in a
    ensures Cut(a + (['/'] + b)) == Some((a, b))
  {
    assert a + (['/'] + b) == a + ['/'] + b;
    IndexOfSeparator(a, '/', b);
  }

  ghost function DateOf(month: string, day: string, year: string): Option<CalendarDate> {
    if Unpadded(month) && Unpadded(day) && Unpadded(year)
    then Some(CalendarDate(ReadDigits(year), ReadDigits(month), ReadDigits(day)))
    else None
  }

  /** A date written month, day, year between slashes, none of them padded. */
  ghost function ReadDate(s: string): Option<CalendarDate> {
    match Cut(s)
    case None => None
    case Some((month, rest)) =>
      match Cut(rest)
      case None => None
      case Some((day, year)) => DateOf(month, day, year)
  }

  lemma {:induction false} DigitsAreUnpadded(n: nat)
    ensures Unpadded(Digits(n)) && (n > 0 ==> Digits(n)[0] != '0')
  {
    if n >= 10 {
      DigitsAreUnpadded(n / 10);
    }
  }

  lemma DateTextReadsBack(d: CalendarDate)
    ensures ReadDate(DateText(d)) == Some(d)
  {
    hide Digits, ReadDigits, Cut, Unpadded;
    var m, day, y := Digits(d.month), Digits(d.day), Digits(d.year);
    DigitsHaveNo(m, '/');
    DigitsHaveNo(day, '/');
    CutsAtSlash(m, day + (['/'] + y));
    CutsAtSlash(day, y);
    assert DateText(d) == m + (['/'] + (day + (['/'] + y)));
    ReadsDate(d);
  }

  lemma ReadsDate(d: CalendarDate)
    ensures DateOf(Digits(d.month), Digits(d.day), Digits(d.year)) == Some(d)
  {
    hide Digits, ReadDigits, Unpadded;
    ReadsDigits(d.month);
    ReadsDigits(d.day);
    ReadsDigits(d.year);
    DigitsAreUnpadded(d.month);
    DigitsAreUnpadded(d.day);
    DigitsAreUnpadded(d.year);
  }

  /** The date on the page is the date in the report: what is rendered reads back to the parsed day. */
  lemma DateReadsBack(v: Value)
    requires v.kind == Date && ParseDate(v.text).Some?
    ensures FormatOf(v).Ok? && ReadDate(FormatOf(v).value) == ParseDate(v.text)
  {
    hide ReadDate;
    DateTextReadsBack(ParseDate(v.text).value);
  }

  // ---- what can never be in it

  ghost predicate Plain(s: string) {
    '{' !in s && '}' !in s
  }

  lemma DigitsArePlain(s: string)
    requires AllDigits(s)
    ensures Plain(s)
  {
    DigitsHaveNo(s, '{');
    DigitsHaveNo(s, '}');
  }

  lemma {:induction false} OnlyCommasGo(s: string, c: char)
    requires c in s && c != ','
    ensures c in WithoutCommas(s)
  {
    if s[|s| - 1] != c {
      assert s == s[..|s| - 1] + [s[|s| - 1]];
      OnlyCommasGo(s[..|s| - 1], c);
    }
  }

  lemma FigureIsPlain(s: string, sign: string, whole: string, frac: string)
    requires IsFigure(s, sign, whole, frac)
    ensures Plain(s)
  {
    DigitsArePlain(whole);
    DigitsArePlain(frac);
  }

  lemma SaysIsPlain(s: string, v: real, places: nat)
    requires Says(s, v, places)
    ensures Plain(s)
  {
    var whole, frac :| IsFigure(s, Sign(v), whole, frac);
    FigureIsPlain(s, Sign(v), whole, frac);
  }

  lemma UncommaedIsPlain(s: string)
    requires Plain(WithoutCommas(s))
    ensures Plain(s)
  {
    if '{' in s {
      OnlyCommasGo(s, '{');
    }
    if '}' in s {
      OnlyCommasGo(s, '}');
    }
  }

  /** Values the vocabulary may hold: of a known kind, dates that are dates, symbols without braces. */
  ghost predicate Renderable(v: Value) {
    v.kind != NoKind && (v.kind == Date ==> ParseDate(v.text).Some?) && (v.kind == SymbolName ==> Plain(v.text))
  }

  /** A renderable value renders, and never as a brace. */
  lemma RenderableIsPlain(v: Value)
    requires Renderable(v)
    ensures FormatOf(v).Ok? && Plain(FormatOf(v).value)
  {
    hide Decimal, Trimmed, GroupedText, WithoutCommas, Says, Digits;
    if IsNumeric(v.kind) {
      FigureReadsBack(v);
      SaysIsPlain(Bare(v.kind, FormatOf(v).value), v.num, Places(v.kind));
      if v.kind == Money || v.kind == Quantity || v.kind == Count {
        UncommaedIsPlain(FormatOf(v).value);
      } else {
        DecimalSays(v.num, Places(v.kind));
        SaysIsPlain(Decimal(v.num, Places(v.kind)), v.num, Places(v.kind));
      }
    } else if v.kind == Date {
      var d := ParseDate(v.text).value;
      DigitsArePlain(Digits(d.month));
      DigitsArePlain(Digits(d.day));
      DigitsArePlain(Digits(d.year));
    }
  }
}
