/** Account age, computed from the creation instant and a clock reading, both in integer
    milliseconds: whole days (floor of the difference), then whole years of 365 days and
    whole months of 30 days in what remains of the last year, rendered as
    "<years> years, <months> months" or, when there are no whole years, "<months> months".
    The remainder uses JavaScript's truncating `%`, which only differs from Dafny's when the
    creation instant lies after the clock reading. */
module AgeHelpers {
  import opened JsValues

  const MsPerDay: int := 1000 * 60 * 60 * 24
  const DaysPerYear: int := 365
  const DaysPerMonth: int := 30

  /** `calculateAgeDays`: the number of whole days from the creation instant to the clock. */
  function AgeDays(createdAtMs: int, nowMs: int): (days: int)
    ensures days * MsPerDay <= nowMs - createdAtMs < days * MsPerDay + MsPerDay
    ensures createdAtMs <= nowMs ==> days >= 0
  {
    FloorDiv(nowMs - createdAtMs, MsPerDay)
  }

  /** Whole years and the whole months left over. */
  datatype Age = Age(years: int, months: int)

  /** The years and months `calculateAccountAge` derives from a day count. */
  function AgeParts(diffDays: int): (a: Age)
    ensures diffDays >= 0 ==> a.years >= 0 && 0 <= a.months <= 12
    ensures diffDays >= 0 ==>
      0 <= diffDays - a.years * DaysPerYear < DaysPerYear &&
      0 <= diffDays - a.years * DaysPerYear - a.months * DaysPerMonth < DaysPerMonth
    ensures diffDays < 0 ==> a.years < 0 && -13 <= a.months <= 0
  {
    var years := FloorDiv(diffDays, DaysPerYear);
    var months := FloorDiv(TruncRem(diffDays, DaysPerYear), DaysPerMonth);
    assert diffDays >= 0 ==> TruncRem(diffDays, DaysPerYear) == diffDays - years * DaysPerYear by {
      assert diffDays == (diffDays / DaysPerYear) * DaysPerYear + diffDays % DaysPerYear;
    }
    Age(years, months)
  }

  // Reading the text back

  predicate IsNumeral(c: char) {
    IsDigit(c) || c == '-'
  }

  /** Splits off the longest prefix made of digits and minus signs. */
  function SplitNumeral(s: string): (parts: (string, string))
    ensures parts.0 + parts.1 == s
  {
    if s == [] || !IsNumeral(s[0]) then ([], s)
    else
      var rest := SplitNumeral(s[1..]);
      ([s[0]] + rest.0, rest.1)
  }

  /** What an age text says: a months count alone, or a years count followed by months. */
  datatype AgeText = MonthsOnly(months: int) | YearsAndMonths(years: int, months: int)

  /** The reading an age text should have: the years part appears only for at least one year. */
  function Shown(a: Age): AgeText {
    if a.years > 0 then YearsAndMonths(a.years, a.months) else MonthsOnly(a.months)
  }

  /** The years an age text reports; a text without a years part reports none. */
  function YearsOf(t: AgeText): int {
    if t.YearsAndMonths? then t.years else 0
  }

  /** Reads an age text back into its parts. */
  function ParseAge(s: string): Option<AgeText>
  {
    var (first, rest) := SplitNumeral(s);
    if rest == " months" then
      Some(MonthsOnly(ParseInt(first)))
    else if |rest| >= 8 && rest[..8] == " years, " then
      var (second, tail) := SplitNumeral(rest[8..]);
      if tail == " months" then Some(YearsAndMonths(ParseInt(first), ParseInt(second))) else None
    else
      None
  }

  lemma {:induction false} SplitNumeralAppend(p: string, t: string)
    requires forall i :: 0 <= i < |p| ==> IsNumeral(p[i])
    requires t == [] || !IsNumeral(t[0])
    ensures SplitNumeral(p + t) == (p, t)
  {
    if p != [] {
      assert (p + t)[0] == p[0] && (p + t)[1..] == p[1..] + t;
      SplitNumeralAppend(p[1..], t);
      assert [p[0]] + p[1..] == p;
    } else {
      assert p + t == t;
    }
  }

  lemma SplitDecimal(i: int, t: string)
    requires t == [] || !IsNumeral(t[0])
    ensures SplitNumeral(IntToDecimal(i) + t) == (IntToDecimal(i), t)
  {
    var d := IntToDecimal(i);
    if i < 0 {
      assert d == "-" + NatToDecimal(-i);
      assert forall k :: 1 <= k < |d| ==> d[k] == NatToDecimal(-i)[k - 1];
    }
    SplitNumeralAppend(d, t);
  }

  /** "<m> months" reads back as a months-only text with `m`. */
  lemma {:induction false} MonthsOnlyRoundTrip(m: int)
    ensures ParseAge(IntToDecimal(m) + " months") == Some(MonthsOnly(m))
  {
    IntToDecimalRoundTrip(m);
    SplitDecimal(m, " months");
  }

  /** How `ParseAge` reads a text whose numeral is followed by a years part. */
  lemma ParseYearsPart(s: string, first: string, rest: string, second: string)
    requires SplitNumeral(s) == (first, rest)
    requires |rest| > 8 + 7 && rest[..8] == " years, "
    requires SplitNumeral(rest[8..]) == (second, " months")
    ensures ParseAge(s) == Some(YearsAndMonths(ParseInt(first), ParseInt(second)))
  {
  }

  /** "<y> years, <m> months" reads back as a text with years `y` and months `m`. */
  lemma {:induction false} YearsAndMonthsRoundTrip(y: int, m: int)
    ensures ParseAge(IntToDecimal(y) + " years, " + IntToDecimal(m) + " months") == Some(YearsAndMonths(y, m))
  {
    var yText, mText := IntToDecimal(y), IntToDecimal(m);
    var rest := " years, " + mText + " months";
    assert yText + " years, " + mText + " months" == yText + rest;
    assert rest[0] == ' ';
    SplitDecimal(y, rest);
    assert rest[..8] == " years, " && rest[8..] == mText + " months";
    SplitDecimal(m, " months");
    ParseYearsPart(yText + rest, yText, rest, mText);
    IntToDecimalRoundTrip(y);
    IntToDecimalRoundTrip(m);
  }

  /** The text of the age: the years part is written only when there is at least one year. */
  function FormatAge(a: Age): string
  {
    if a.years > 0 then
      IntToDecimal(a.years) + " years, " + IntToDecimal(a.months) + " months"
    else
      IntToDecimal(a.months) + " months"
  }

  /** `calculateAccountAge`. */
  function AccountAge(createdAtMs: int, nowMs: int): string
  {
    FormatAge(AgeParts(AgeDays(createdAtMs, nowMs)))
  }

  /** The age text is unambiguous. With at least one year it reads back as exactly the years
      and months it was made from, years part included; otherwise it reads back as the months
      alone, with no years part (a zero or negative year count is not written). */
  lemma {:induction false} FormatAgeRoundTrip(a: Age)
    ensures ParseAge(FormatAge(a)) == Some(Shown(a))
    ensures ParseAge(FormatAge(a)).value.YearsAndMonths? <==> a.years > 0
  {
    if a.years > 0 {
      YearsAndMonthsRoundTrip(a.years, a.months);
    } else {
      MonthsOnlyRoundTrip(a.months);
    }
  }

  /** What the text says about elapsed time: for a creation instant not after the clock, the
      years and months it reads back as cover the elapsed whole days to within one month, the
      months stay within 0..12, and a text without years means less than a year. */
  lemma {:induction false} AccountAgeMeaning(createdAtMs: int, nowMs: int)
    requires createdAtMs <= nowMs
    ensures var days := AgeDays(createdAtMs, nowMs);
      var parsed := ParseAge(AccountAge(createdAtMs, nowMs));
      parsed.Some? &&
      var years, months := YearsOf(parsed.value), parsed.value.months;
      0 <= years && 0 <= months <= 12 &&
      (parsed.value.MonthsOnly? <==> days < DaysPerYear) &&
      0 <= days - years * DaysPerYear < DaysPerYear &&
      0 <= days - years * DaysPerYear - months * DaysPerMonth < DaysPerMonth
  {
    FormatAgeRoundTrip(AgeParts(AgeDays(createdAtMs, nowMs)));
  }

  /** A whole number of days between the two instants is the age in days. */
  lemma WholeDays(createdAtMs: int, days: int)
    ensures AgeDays(createdAtMs, createdAtMs + days * MsPerDay) == days
  {
    var d := AgeDays(createdAtMs, createdAtMs + days * MsPerDay);
    assert d * MsPerDay <= days * MsPerDay < d * MsPerDay + MsPerDay;
  }

  /** 400 days give "1 years, 1 months" and an age of 400 days. */
  lemma FourHundredDays(createdAtMs: int)
    ensures AgeDays(createdAtMs, createdAtMs + 400 * MsPerDay) == 400
    ensures AccountAge(createdAtMs, createdAtMs + 400 * MsPerDay) == "1 years, 1 months"
  {
    var nowMs := createdAtMs + 400 * MsPerDay;
    WholeDays(createdAtMs, 400);
    assert AgeParts(400) == Age(1, 1);
    assert AccountAge(createdAtMs, nowMs) == FormatAge(Age(1, 1));
    OneYearOneMonthText();
  }

  /** The text of one year and one month. */
  lemma OneYearOneMonthText()
    ensures FormatAge(Age(1, 1)) == "1 years, 1 months"
  {
    var one := IntToDecimal(1);
    assert one == [DigitChar(1)] == ['1'];
    assert FormatAge(Age(1, 1)) == one + " years, " + one + " months";
    assert ['1'] + " years, " + ['1'] + " months" == "1 years, 1 months";
  }

  /** The month count reaches 12: 364 days read as "12 months". */
  lemma TwelveMonthsReached(createdAtMs: int)
    ensures AccountAge(createdAtMs, createdAtMs + 364 * MsPerDay) == "12 months"
  {
    assert AgeDays(createdAtMs, createdAtMs + 364 * MsPerDay) == 364;
    assert AgeParts(364) == Age(0, 12);
    assert IntToDecimal(12) == NatToDecimal(1) + [DigitChar(2)] == "12";
  }

  /** A creation instant one day in the future reads as "-1 months": the truncating `%` keeps
      the sign of the negative day count. */
  lemma FutureCreation(nowMs: int)
    ensures AccountAge(nowMs + MsPerDay, nowMs) == "-1 months"
  {
    assert AgeDays(nowMs + MsPerDay, nowMs) == -1;
    assert AgeParts(-1) == Age(-1, -1);
    assert IntToDecimal(-1) == "-1";
  }
}
