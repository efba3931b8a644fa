/** How one figure becomes the text a reader sees, and that it can be read back. */
module Format {
  import opened Wrappers
  import opened Numeric
  import opened Text

  function Pow10(n: nat): (p: nat)
    ensures p >= 1
  {
    if n == 0 then 1 else 10 * Pow10(n - 1)
  }

  function DigitChar(d: nat): (c: char)
    requires d < 10
    ensures IsDigit(c)
  {
    ('0' as int + d) as char
  }

  function DigitValue(c: char): (d: nat)
    requires IsDigit(c)
    ensures d < 10
  {
    c as int - '0' as int
  }

  /** A whole number without leading zeros. */
  function Digits(n: nat): (s: string)
    ensures AllDigits(s) && |s| >= 1
  {
    if n < 10 then [DigitChar(n)] else Digits(n / 10) + [DigitChar(n % 10)]
  }

  /** The last width digits of a number, leading zeros and all. */
  function Padded(n: nat, width: nat): (s: string)
    ensures AllDigits(s) && |s| == width
  {
    if width == 0 then [] else Padded(n / 10, width - 1) + [DigitChar(n % 10)]
  }

  function ReadDigits(s: string): nat
    requires AllDigits(s)
  {
    if s == [] then 0 else ReadDigits(s[..|s| - 1]) * 10 + DigitValue(s[|s| - 1])
  }

  lemma {:induction false} ReadsDigits(n: nat)
    ensures ReadDigits(Digits(n)) == n
  {
    if n >= 10 {
      ReadsDigits(n / 10);
      assert Digits(n)[..|Digits(n)| - 1] == Digits(n / 10);
    }
  }

  /** What is left of a number when its last places digits are taken off. */
  function Dropped(n: nat, places: nat): nat {
    if places == 0 then n else Dropped(n / 10, places - 1)
  }

  lemma TimesTen(x: nat, p: nat)
    ensures x * (10 * p) == (x * p) * 10 && x * (10 * p) == (x * 10) * p
  {}

  lemma ShiftDigit(dropped: nat, p: nat, kept: nat, n: nat)
    requires dropped * p + kept == n / 10
    ensures dropped * (10 * p) + (kept * 10 + n % 10) == n
  {
    TimesTen(dropped, p);
  }

  lemma PaddedStep(n: nat, places: nat)
    requires places > 0
    ensures ReadDigits(Padded(n, places)) == ReadDigits(Padded(n / 10, places - 1)) * 10 + n % 10
    ensures Dropped(n, places) == Dropped(n / 10, places - 1) && Pow10(places) == 10 * Pow10(places - 1)
  {
    assert Padded(n, places)[..places - 1] == Padded(n / 10, places - 1);
  }

  /** The digits taken off and the digits left make up the number. */
  lemma {:induction false} ReadsPadded(n: nat, places: nat)
    ensures Dropped(n, places) * Pow10(places) + ReadDigits(Padded(n, places)) == n
  {
    if places > 0 {
      hide Dropped, Pow10, ReadDigits, Padded;
      ReadsPadded(n / 10, places - 1);
      PaddedStep(n, places);
      ShiftDigit(Dropped(n / 10, places - 1), Pow10(places - 1), ReadDigits(Padded(n / 10, places - 1)), n);
    }
  }

  // ---- decimals

  /** The magnitude of a figure in its last place, rounded halfway away from zero. */
  function Scaled(v: real, places: nat): nat {
    var n := RoundHalfAway(v * Pow10(places) as real);
    if n < 0 then -n else n
  }

  function Sign(v: real): string {
    if v < 0.0 then "-" else ""
  }

  /** Whole part, point and exactly places digits; no point at no places. A negative figure keeps its sign even where it
      rounds to zero, as the float underneath does. */
  function Decimal(v: real, places: nat): string {
    var n := Scaled(v, places);
    Sign(v) + Digits(Dropped(n, places)) + if places == 0 then "" else "." + Padded(n, places)
  }

  /** Thousands separators, from the right. */
  function Grouped(digits: string): string {
    if |digits| <= 3 then digits else Grouped(digits[..|digits| - 3]) + "," + digits[|digits| - 3..]
  }

  function Separator(written: nat, remaining: nat): string {
    if written > 0 && remaining % 3 == 0 then "," else ""
  }

  /** The same, as written: from the left, a separator wherever a multiple of three digits is still to come. */
  function GroupedFrom(digits: string, i: nat): string
    requires i <= |digits|
  {
    if i == 0 then ""
    else
      GroupedFrom(digits, i - 1) + Separator(i - 1, |digits| - (i - 1)) + [digits[i - 1]]
  }

  lemma {:induction false} GroupedFromPrefix(digits: string, i: nat)
    requires |digits| >= 3 && i <= |digits| - 3
    ensures GroupedFrom(digits, i) == GroupedFrom(digits[..|digits| - 3], i)
  {
    if i > 0 {
      GroupedFromPrefix(digits, i - 1);
    }
  }

  lemma GroupedFromStep(digits: string, i: nat)
    requires i < |digits|
    ensures GroupedFrom(digits, i + 1) == GroupedFrom(digits, i) + Separator(i, |digits| - i) + [digits[i]]
  {}

  lemma JoinThree(front: string, g1: string, g2: string, g3: string, a: char, b: char, c: char)
    requires g1 == front + "," + [a] && g2 == g1 + "" + [b] && g3 == g2 + "" + [c]
    ensures g3 == front + "," + [a, b, c]
  {}

  lemma LastSlice(digits: string)
    requires |digits| > 3
    ensures var n := |digits|; digits[n - 3..] == [digits[n - 3], digits[n - 2], digits[n - 1]]
  {}

  lemma StepThree(digits: string)
    requires |digits| > 3
    ensures var n := |digits|; GroupedFrom(digits, n - 2) == GroupedFrom(digits, n - 3) + "," + [digits[n - 3]]
  {
    hide GroupedFrom;
    GroupedFromStep(digits, |digits| - 3);
  }

  lemma StepTwo(digits: string)
    requires |digits| > 3
    ensures var n := |digits|; GroupedFrom(digits, n - 1) == GroupedFrom(digits, n - 2) + "" + [digits[n - 2]]
  {
    hide GroupedFrom;
    GroupedFromStep(digits, |digits| - 2);
  }

  lemma StepOne(digits: string)
    requires |digits| > 3
    ensures var n := |digits|; GroupedFrom(digits, n) == GroupedFrom(digits, n - 1) + "" + [digits[n - 1]]
  {
    hide GroupedFrom;
    GroupedFromStep(digits, |digits| - 1);
  }

  lemma LastThree(digits: string)
    requires |digits| > 3
    ensures var n := |digits|; GroupedFrom(digits, n) == GroupedFrom(digits, n - 3) + "," + digits[n - 3..]
  {
    hide GroupedFrom;
    var n := |digits|;
    StepThree(digits);
    StepTwo(digits);
    StepOne(digits);
    LastSlice(digits);
    JoinThree(GroupedFrom(digits, n - 3), GroupedFrom(digits, n - 2), GroupedFrom(digits, n - 1),
              GroupedFrom(digits, n), digits[n - 3], digits[n - 2], digits[n - 1]);
  }

  lemma GroupedStep(digits: string)
    requires |digits| > 3
    ensures Grouped(digits) == Grouped(digits[..|digits| - 3]) + "," + digits[|digits| - 3..]
  {}

  lemma {:induction false} GroupingAgrees(digits: string)
    ensures GroupedFrom(digits, |digits|) == Grouped(digits)
  {
    var n := |digits|;
    if n <= 3 {
      ShortGroup(digits, n);
      assert digits[..n] == digits;
    } else {
      hide GroupedFrom, Grouped;
      GroupingAgrees(digits[..n - 3]);
      GroupedFromPrefix(digits, n - 3);
      LastThree(digits);
      GroupedStep(digits);
    }
  }

  lemma {:induction false} ShortGroup(digits: string, i: nat)
    requires i <= |digits| <= 3
    ensures GroupedFrom(digits, i) == digits[..i]
  {
    if i > 0 {
      ShortGroup(digits, i - 1);
    }
  }

  /** The parts of a written decimal: sign, whole digits, and the rest from the point on. */
  function SignOf(s: string): string {
    if s != [] && s[0] == '-' then "-" else ""
  }

  function WholeOf(s: string): string {
    var t := s[|SignOf(s)|..];
    match IndexOf(t, '.') case None => t case Some(dot) => t[..dot]
  }

  function RestOf(s: string): string {
    var t := s[|SignOf(s)|..];
    match IndexOf(t, '.') case None => "" case Some(dot) => t[dot..]
  }

  method GroupDigits(intPart: string) returns (b: string)
    ensures b == Grouped(intPart)
  {
    hide Grouped;
    b := "";
    for i := 0 to |intPart|
      invariant b == GroupedFrom(intPart, i)
    {
      if i > 0 && (|intPart| - i) % 3 == 0 {
        b := b + ",";
      }
      b := b + [intPart[i]];
    }
    GroupingAgrees(intPart);
  }

  function GroupedText(s: string): string {
    SignOf(s) + Grouped(WholeOf(s)) + RestOf(s)
  }

  method Group(s: string) returns (out: string)
    ensures out == GroupedText(s)
  {
    hide Grouped, IndexOf;
    var sign, body := "", s;
    if |s| > 0 && s[0] == '-' {
      sign, body := "-", s[1..];
    }
    var intPart, frac := body, "";
    var dot := IndexOf(body, '.');
    if dot.Some? {
      intPart, frac := body[..dot.value], body[dot.value..];
    }
    var grouped := GroupDigits(intPart);
    return sign + grouped + frac;
  }

  function WithoutTrailingZeros(s: string): string {
    if s != [] && s[|s| - 1] == '0' then WithoutTrailingZeros(s[..|s| - 1]) else s
  }

  function Trimmed(s: string): string {
    if '.' !in s then s
    else
      var t := WithoutTrailingZeros(s);
      if t != [] && t[|t| - 1] == '.' then t[..|t| - 1] else t
  }

  // ---- reading a figure back

  function WithoutCommas(s: string): string {
    if s == [] then []
    else WithoutCommas(s[..|s| - 1]) + if s[|s| - 1] == ',' then [] else [s[|s| - 1]]
  }

  lemma {:induction false} CommasJoin(a: string, b: string)
    ensures WithoutCommas(a + b) == WithoutCommas(a) + WithoutCommas(b)
  {
    if b == [] {
      assert a + b == a;
    } else {
      CommasJoin(a, b[..|b| - 1]);
      assert (a + b)[..|a + b| - 1] == a + b[..|b| - 1];
    }
  }

  lemma {:induction false} NoCommas(s: string)
    requires ',' !in s
    ensures WithoutCommas(s) == s
  {
    if s != [] {
      NoCommas(s[..|s| - 1]);
    }
  }

  lemma CommaAlone()
    ensures WithoutCommas(",") == ""
  {
    assert ","[..0] == [];
  }

  /** Separators are all that grouping adds. */
  lemma {:induction false} GroupingOnlyAddsCommas(digits: string)
    requires AllDigits(digits)
    ensures WithoutCommas(Grouped(digits)) == digits
  {
    DigitsHaveNo(digits, ',');
    if |digits| <= 3 {
      NoCommas(digits);
    } else {
      hide WithoutCommas;
      var front, back := digits[..|digits| - 3], digits[|digits| - 3..];
      GroupingOnlyAddsCommas(front);
      CommasJoin(Grouped(front) + ",", back);
      CommasJoin(Grouped(front), ",");
      CommaAlone();
      NoCommas(back);
      assert digits == front + back;
    }
  }

  /** The commas stand exactly before every third digit from the right, and never first. */
  lemma {:induction false} CommaEveryThree(digits: string)
    requires AllDigits(digits) && digits != ""
    ensures var g := Grouped(digits);
            g != "" && g[0] != ',' && forall i :: 0 <= i < |g| ==> (g[i] == ',' <==> (|g| - i) % 4 == 0)
  {
    if |digits| > 3 {
      var front, back := digits[..|digits| - 3], digits[|digits| - 3..];
      CommaEveryThree(front);
      GroupedStep(digits);
      var f, g := Grouped(front), Grouped(digits);
      hide Grouped;
      assert g == f + "," + back;
      forall i | 0 <= i < |g| ensures g[i] == ',' <==> (|g| - i) % 4 == 0 {
        if i < |f| {
          assert g[i] == f[i] && |g| - i == |f| - i + 4;
        }
      }
    }
  }

  /** A well-formed figure: an optional sign, whole digits, and perhaps a point with digits after it. */
  ghost predicate IsFigure(s: string, sign: string, whole: string, frac: string) {
    && (sign == "" || sign == "-") && AllDigits(whole) && AllDigits(frac) && whole != ""
    && s == sign + whole + if frac == "" then "" else "." + frac
  }

  /** What a figure says, counted in units of its places-th decimal; its sign is read separately. */
  function ReadMagnitude(whole: string, frac: string, places: nat): nat
    requires AllDigits(whole) && AllDigits(frac) && |frac| <= places
  {
    ReadDigits(whole) * Pow10(places) + ReadDigits(frac) * Pow10(places - |frac|)
  }

  lemma FigureParts(s: string, sign: string, whole: string, frac: string)
    requires IsFigure(s, sign, whole, frac)
    ensures SignOf(s) == sign && WholeOf(s) == whole && RestOf(s) == if frac == "" then "" else "." + frac
  {
    hide IndexOf;
    var tail := if frac == "" then "" else "." + frac;
    assert s == sign + (whole + tail) && s[|sign|] == whole[0];
    assert SignOf(s) == sign;
    assert s[|sign|..] == whole + tail;
    DigitsHaveNo(whole, '.');
    if frac == "" {
      assert whole + tail == whole;
    } else {
      assert whole + tail == whole + ['.'] + frac;
      IndexOfSeparator(whole, '.', frac);
    }
  }

  /** Writing a figure to a number of places and reading it back gives it exactly as rounded. */
  lemma DecimalReadsBack(v: real, places: nat)
    ensures var n := Scaled(v, places);
            var whole, frac := Digits(Dropped(n, places)), Padded(n, places);
            IsFigure(Decimal(v, places), Sign(v), whole, frac) && ReadMagnitude(whole, frac, places) == n
  {
    hide Scaled;
    var n := Scaled(v, places);
    ReadsDigits(Dropped(n, places));
    ReadsPadded(n, places);
  }

  /** A figure is written with a minus exactly where it is below zero. */
  lemma MinusIsBelowZero(v: real, places: nat)
    ensures Decimal(v, places) != "" && (Decimal(v, places)[0] == '-' <==> v < 0.0)
  {
    hide Digits, Padded, Dropped, Scaled;
    var whole := Digits(Dropped(Scaled(v, places), places));
    var rest := if places == 0 then "" else "." + Padded(Scaled(v, places), places);
    assert IsDigit(whole[0]);
    assert Decimal(v, places) == Sign(v) + (whole + rest);
    assert (whole + rest)[0] == whole[0];
  }

  /** And its magnitude is the nearest one of its places, halves away from zero. */
  lemma ScaledIsNearest(v: real, places: nat)
    ensures var exact, n := (if v < 0.0 then -v else v) * Pow10(places) as real, Scaled(v, places) as real;
            -0.5 < n - exact <= 0.5
  {
    var p := Pow10(places) as real;
    var x := v * p;
    if v < 0.0 {
      assert (-v) * p == -x;
      NegativeProduct(v, p);
    } else {
      ProductNonnegative(v, p);
    }
    NearestMagnitude(x);
  }

  lemma NearestMagnitude(x: real)
    ensures var n := RoundHalfAway(x);
            var magnitude := (if n < 0 then -n else n) as real;
            -0.5 < magnitude - (if x < 0.0 then -x else x) <= 0.5
  {}

  lemma NegativeProduct(x: real, p: real)
    requires x < 0.0 && p > 0.0
    ensures x * p < 0.0
  {}

  /** Grouping changes no digit and no sign, and nothing after the point. */
  lemma GroupingReadsBack(s: string, sign: string, whole: string, frac: string)
    requires IsFigure(s, sign, whole, frac)
    ensures WithoutCommas(GroupedText(s)) == s
  {
    FigureParts(s, sign, whole, frac);
    var tail := if frac == "" then "" else "." + frac;
    GroupingOnlyAddsCommas(whole);
    CommasJoin(sign + Grouped(whole), tail);
    CommasJoin(sign, Grouped(whole));
    NoCommas(sign);
    DigitsHaveNo(frac, ',');
    NoCommas(tail);
    assert s == sign + whole + tail;
  }

  lemma {:induction false} TrimDigits(prefix: string, frac: string)
    requires AllDigits(frac) && prefix != [] && prefix[|prefix| - 1] == '.'
    ensures AllDigits(WithoutTrailingZeros(frac))
    ensures WithoutTrailingZeros(prefix + frac) == prefix + WithoutTrailingZeros(frac)
  {
    if frac == [] {
      assert prefix + frac == prefix;
    } else if frac[|frac| - 1] == '0' {
      TrimDigits(prefix, frac[..|frac| - 1]);
      assert (prefix + frac)[..|prefix + frac| - 1] == prefix + frac[..|frac| - 1];
    }
  }

  lemma Pow10Step(n: nat)
    ensures Pow10(n + 1) == 10 * Pow10(n)
  {}

  lemma {:induction false} TrimmedReadsTheSame(frac: string, places: nat)
    requires AllDigits(frac) && |frac| <= places
    ensures AllDigits(WithoutTrailingZeros(frac)) && |WithoutTrailingZeros(frac)| <= |frac|
    ensures ReadDigits(WithoutTrailingZeros(frac)) * Pow10(places - |WithoutTrailingZeros(frac)|)
            == ReadDigits(frac) * Pow10(places - |frac|)
  {
    if frac != [] && frac[|frac| - 1] == '0' {
      var shorter := frac[..|frac| - 1];
      TrimmedReadsTheSame(shorter, places);
      Pow10Step(places - |frac|);
      assert ReadDigits(frac) == ReadDigits(shorter) * 10;
      TimesTen(ReadDigits(shorter), Pow10(places - |frac|));
    }
  }

  /** Trimming zeros after the point leaves a figure that reads the same. */
  lemma TrimmingReadsBack(s: string, sign: string, whole: string, frac: string, places: nat)
    requires IsFigure(s, sign, whole, frac) && frac != "" && |frac| <= places
    ensures var t := WithoutTrailingZeros(frac);
            && AllDigits(t) && |t| <= |frac| && IsFigure(Trimmed(s), sign, whole, t)
            && (t != "" ==> t[|t| - 1] != '0')
            && ReadMagnitude(whole, t, places) == ReadMagnitude(whole, frac, places)
  {
    var t := WithoutTrailingZeros(frac);
    var prefix := sign + whole + ".";
    assert s == prefix + frac;
    TrimDigits(prefix, frac);
    TrimmedReadsTheSame(frac, places);
    EndsInNoZero(frac);
    assert s[|prefix| - 1] == '.';
    if t == "" {
      assert prefix + t == prefix;
      assert prefix[..|prefix| - 1] == sign + whole;
    } else {
      assert (prefix + t)[|prefix + t| - 1] == t[|t| - 1];
      DigitsHaveNo(t, '.');
    }
  }

  lemma {:induction false} EndsInNoZero(s: string)
    ensures var t := WithoutTrailingZeros(s); t != "" ==> t[|t| - 1] != '0'
  {
    if s != [] && s[|s| - 1] == '0' {
      EndsInNoZero(s[..|s| - 1]);
    }
  }
}
