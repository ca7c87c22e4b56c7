/** The date handling of the feed importer: `datetime.strptime(text, "%Y-%m-%d")` followed by
    `strftime("%B %d, %Y")`, over the proleptic Gregorian calendar of Python's `datetime`
    (years 1 to 9999, English month names). */
module Calendar {

  import opened Options
  import opened Text

  datatype Date = Date(year: nat, month: nat, day: nat)

  predicate IsLeapYear(year: nat)
  {
    year % 4 == 0 && (year % 100 != 0 || year % 400 == 0)
  }

  function DaysInMonth(year: nat, month: nat): (n: nat)
    requires 1 <= month <= 12
    ensures 28 <= n <= 31
    ensures month == 2 ==> (n == 29 <==> IsLeapYear(year))
  {
    if month == 2 then (if IsLeapYear(year) then 29 else 28)
    else if month in {4, 6, 9, 11} then 30
    else 31
  }

  /** The dates `datetime` can represent. */
  predicate ValidDate(d: Date)
  {
    1 <= d.year <= 9999 && 1 <= d.month <= 12 && 1 <= d.day <= DaysInMonth(d.year, d.month)
  }

  /** A month or day field as the `%m` and `%d` directives match it: one or two ASCII digits. */
  predicate IsShortField(t: string)
  {
    1 <= |t| <= 2 && AllDigits(t)
  }

  /** The date that "%Y-%m-%d" reads from the three fields of a text: a four-digit year and a
      one- or two-digit month and day that must name a real date. */
  function DateOfFields(yearText: string, monthText: string, dayText: string): (r: Option<Date>)
    ensures r.Some? ==> ValidDate(r.value)
  {
    if |yearText| != 4 || !AllDigits(yearText) || !IsShortField(monthText) || !IsShortField(dayText) then None
    else
      var d := Date(DecimalValue(yearText).value, DecimalValue(monthText).value, DecimalValue(dayText).value);
      if ValidDate(d) then Some(d) else None
  }

  /** `datetime.strptime(s, "%Y-%m-%d")` on a text without spaces (the only texts the importer
      passes it): None where Python raises ValueError. The year is the four characters before
      the first '-', the month runs to the next '-', and the day must end the text. Python's
      `%d` also accepts a space before a single digit; that case is not modelled. */
  function ParseYmd(s: string): (r: Option<Date>)
    ensures r.Some? ==> ValidDate(r.value)
  {
    if |s| < 5 || s[4] != '-' || '-' !in s[5..] then None
    else DateOfFields(s[..4], BeforeFirst(s[5..], '-'), AfterFirst(s[5..], '-'))
  }

  /** Every text `ParseYmd` accepts is the padded year of its date, then '-', then a one- or
      two-digit month and day that read as the date's month and day. */
  lemma ParseYmdShape(s: string)
    requires ParseYmd(s).Some?
    ensures var d := ParseYmd(s).value;
            exists m, dd :: IsShortField(m) && IsShortField(dd)
                            && DecimalValue(m) == Some(d.month) && DecimalValue(dd) == Some(d.day)
                            && s == Padded(d.year, 4) + "-" + m + "-" + dd
  {
    var rest := s[5..];
    var m, dd := BeforeFirst(rest, '-'), AfterFirst(rest, '-');
    PaddedDecimalValue(s[..4]);
    assert s == s[..4] + "-" + m + "-" + dd by {
      assert s == s[..4] + [s[4]] + rest;
    }
  }

  function MonthName(month: nat): (name: string)
    requires 1 <= month <= 12
    ensures |name| >= 3 && ' ' !in name
  {
    match month
    case 1 => "January"
    case 2 => "February"
    case 3 => "March"
    case 4 => "April"
    case 5 => "May"
    case 6 => "June"
    case 7 => "July"
    case 8 => "August"
    case 9 => "September"
    case 10 => "October"
    case 11 => "November"
    case _ => "December"
  }

  /** `date.strftime("%B %d, %Y")`: full month name, two-digit day, comma, four-digit year. */
  function FormatLong(d: Date): (s: string)
    requires ValidDate(d)
    ensures |s| == |MonthName(d.month)| + 9
  {
    MonthName(d.month) + " " + Padded(d.day, 2) + ", " + Padded(d.year, 4)
  }

  /** The month whose English name is `name`, if any. */
  function MonthNumber(name: string): (r: Option<nat>)
    ensures r.Some? ==> 1 <= r.value <= 12 && MonthName(r.value) == name
  {
    if name == "January" then Some(1)
    else if name == "February" then Some(2)
    else if name == "March" then Some(3)
    else if name == "April" then Some(4)
    else if name == "May" then Some(5)
    else if name == "June" then Some(6)
    else if name == "July" then Some(7)
    else if name == "August" then Some(8)
    else if name == "September" then Some(9)
    else if name == "October" then Some(10)
    else if name == "November" then Some(11)
    else if name == "December" then Some(12)
    else None
  }

  /** Reads the "%B %d, %Y" form back: the inverse of FormatLong. */
  function ParseLong(s: string): (r: Option<Date>)
    ensures r.Some? ==> ValidDate(r.value)
  {
    var rest := AfterFirst(s, ' ');
    if ' ' !in s || |rest| != 8 || rest[2..4] != ", " then None
    else
      var month := MonthNumber(BeforeFirst(s, ' '));
      var day := DecimalValue(rest[..2]);
      var year := DecimalValue(rest[4..]);
      if month.None? || day.None? || year.None? then None
      else
        var d := Date(year.value, month.value, day.value);
        if ValidDate(d) then Some(d) else None
  }

  /** The canonical "YYYY-MM-DD" text of a date. */
  function IsoText(d: Date): (s: string)
    requires ValidDate(d)
    ensures |s| == 10
  {
    Padded(d.year, 4) + "-" + Padded(d.month, 2) + "-" + Padded(d.day, 2)
  }

  lemma MonthNumberOfName(month: nat)
    requires 1 <= month <= 12
    ensures MonthNumber(MonthName(month)) == Some(month)
  {
  }

  /** Formatting a date and reading the text back gives the same date. */
  lemma {:induction false} ParseFormatLong(d: Date)
    requires ValidDate(d)
    ensures ParseLong(FormatLong(d)) == Some(d)
  {
    var name := MonthName(d.month);
    var rest := Padded(d.day, 2) + ", " + Padded(d.year, 4);
    assert FormatLong(d) == name + [' '] + rest;
    SplitJoined(name, ' ', rest);
    MonthNumberOfName(d.month);
    assert rest[..2] == Padded(d.day, 2);
    assert rest[4..] == Padded(d.year, 4);
    DecimalValuePadded(d.day, 2);
    DecimalValuePadded(d.year, 4);
  }

  /** Every text of the form "YYYY-M-D" with one- or two-digit month and day fields is read
      field by field, and accepted exactly when the fields name a real date. */
  lemma {:induction false} ParseYmdFields(year: nat, monthText: string, dayText: string)
    requires 1 <= year <= 9999
    requires IsShortField(monthText) && IsShortField(dayText)
    ensures var d := Date(year, DecimalValue(monthText).value, DecimalValue(dayText).value);
            ParseYmd(Padded(year, 4) + "-" + monthText + "-" + dayText) == if ValidDate(d) then Some(d) else None
  {
    DecimalValuePadded(year, 4);
    var s := Padded(year, 4) + "-" + monthText + "-" + dayText;
    assert s[..4] == Padded(year, 4);
    assert s[5..] == monthText + ['-'] + dayText;
    assert '-' !in monthText by {
      forall i | 0 <= i < |monthText| ensures monthText[i] != '-' {
        assert IsDigit(monthText[i]);
      }
    }
    SplitJoined(monthText, '-', dayText);
    assert ParseYmd(s) == DateOfFields(Padded(year, 4), monthText, dayText);
  }

  /** The canonical text of a date parses back to that date. */
  lemma ParseIsoText(d: Date)
    requires ValidDate(d)
    ensures ParseYmd(IsoText(d)) == Some(d)
  {
    DecimalValuePadded(d.month, 2);
    DecimalValuePadded(d.day, 2);
    ParseYmdFields(d.year, Padded(d.month, 2), Padded(d.day, 2));
  }

  /** February 29th is accepted exactly in leap years. */
  lemma LeapDayAccepted(year: nat)
    requires 1 <= year <= 9999
    ensures ParseYmd(Padded(year, 4) + "-02-29").Some? <==> IsLeapYear(year)
  {
    assert Padded(2, 2) == "02" && Padded(29, 2) == "29";
    DecimalValuePadded(2, 2);
    DecimalValuePadded(29, 2);
    ParseYmdFields(year, "02", "29");
    assert Padded(year, 4) + "-02-29" == Padded(year, 4) + "-" + "02" + "-" + "29";
  }

  /** Months and days written with a single digit are read like their zero-padded forms. */
  lemma SingleDigitFields(d: Date)
    requires ValidDate(d) && d.month < 10 && d.day < 10
    ensures ParseYmd(Padded(d.year, 4) + "-" + Padded(d.month, 1) + "-" + Padded(d.day, 1)) == Some(d)
  {
    DecimalValuePadded(d.month, 1);
    DecimalValuePadded(d.day, 1);
    ParseYmdFields(d.year, Padded(d.month, 1), Padded(d.day, 1));
  }

  /** A thirteenth month is refused. */
  lemma ParseYmdMonthThirteen()
    ensures ParseYmd("2024-13-01") == None
  {
    var s := "2024-13-01";
    assert s[5..] == "13" + ['-'] + "01";
    SplitJoined("13", '-', "01");
    assert DecimalValue("13") == Some(13);
  }

  /** A text that goes on after the day, such as an ISO 8601 time part, is refused. */
  lemma ParseYmdTrailingTime()
    ensures ParseYmd("2024-03-01T10:00:00Z") == None
  {
    var s := "2024-03-01T10:00:00Z";
    assert s[5..] == "03" + ['-'] + "01T10:00:00Z";
    SplitJoined("03", '-', "01T10:00:00Z");
  }
}
