/**
  The shipment-date grammar and the Gregorian calendar behind `pd.to_datetime(...,
  format='%d/%m/%Y', errors='coerce')`. A cell is accepted when it reads as
  D/M/YYYY, with one or two decimal digits for the day and for the month and
  exactly four for the year, and the three numbers name a real calendar date in
  years 1..9999. Anything else is coerced to "no date".
*/
module Dates {
  import opened Wrappers

  /** A calendar date; the ordering key has no time-of-day component. */
  datatype Date = Date(year: int, month: int, day: int)

  predicate IsLeapYear(y: int) {
    y % 4 == 0 && (y % 100 != 0 || y % 400 == 0)
  }

  function DaysInMonth(y: int, m: int): int
    requires 1 <= m <= 12
  {
    if m == 2 then (if IsLeapYear(y) then 29 else 28)
    else if m == 4 || m == 6 || m == 9 || m == 11 then 30
    else 31
  }

  /** A date the calendar (and Python's `datetime`) can represent. */
  predicate ValidDate(d: Date) {
    1 <= d.year <= 9999 && 1 <= d.month <= 12 && 1 <= d.day <= DaysInMonth(d.year, d.month)
  }

  /** The dates a converted shipment-date cell can hold. */
  type CalendarDate = d: Date | ValidDate(d) witness Date(1, 1, 1)

  /** Chronological order: year first, then month, then day. */
  predicate DateLe(a: Date, b: Date) {
    a.year < b.year ||
    (a.year == b.year && (a.month < b.month || (a.month == b.month && a.day <= b.day)))
  }

  lemma DateLeIsTotalOrder(a: Date, b: Date, c: Date)
    ensures DateLe(a, a)
    ensures DateLe(a, b) || DateLe(b, a)
    ensures DateLe(a, b) && DateLe(b, a) ==> a == b
    ensures DateLe(a, b) && DateLe(b, c) ==> DateLe(a, c)
  {
  }

  // ---- decimal digits ----

  predicate IsDigit(c: char) {
    '0' <= c <= '9'
  }

  predicate AllDigits(s: string) {
    forall i | 0 <= i < |s| :: IsDigit(s[i])
  }

  function DigitValue(c: char): nat
    requires IsDigit(c)
  {
    c as int - '0' as int
  }

  function DigitChar(n: nat): (c: char)
    requires n < 10
    ensures IsDigit(c) && DigitValue(c) == n
  {
    ('0' as int + n) as char
  }

  /** The value of a string of decimal digits, most significant first. */
  function Number(s: string): nat
    requires AllDigits(s)
  {
    if s == [] then 0 else 10 * Number(s[..|s| - 1]) + DigitValue(s[|s| - 1])
  }

  /** Two digits with a leading zero, as `%d` and `%m` print. */
  function Pad2(n: nat): string
    requires n < 100
  {
    [DigitChar(n / 10), DigitChar(n % 10)]
  }

  /** Four digits with leading zeros, as `%Y` prints. */
  function Pad4(n: nat): string
    requires n < 10000
  {
    Pad2(n / 100) + Pad2(n % 100)
  }

  // ---- the parser ----

  /** Reads a day or month field of one or two digits and the '/' after it. */
  function ParseField(s: string): (r: Option<(nat, string)>)
    ensures r.Some? ==> r.value.0 < 100
  {
    if |s| >= 2 && IsDigit(s[0]) && s[1] == '/' then
      Some((DigitValue(s[0]), s[2..]))
    else if |s| >= 3 && IsDigit(s[0]) && IsDigit(s[1]) && s[2] == '/' then
      Some((10 * DigitValue(s[0]) + DigitValue(s[1]), s[3..]))
    else
      None
  }

  /** `%d/%m/%Y` under `errors='coerce'`: the date, or None where pandas gives NaT. */
  function ParseDate(s: string): (r: Option<Date>)
    ensures r.Some? ==> ValidDate(r.value)
  {
    match ParseField(s)
    case None => None
    case Some((day, rest)) =>
      match ParseField(rest)
      case None => None
      case Some((month, year)) =>
        if |year| == 4 && AllDigits(year) && ValidDate(Date(Number(year), month, day))
        then Some(Date(Number(year), month, day))
        else None
  }

  // ---- the reference grammar and the canonical printer ----

  /** The ways a day or month `n` may be written: two digits, or one when n < 10. */
  function FieldForms(n: nat): set<string>
    requires n < 100
  {
    {Pad2(n)} + if n < 10 then {[DigitChar(n)]} else {}
  }

  /** Every text that denotes the date `d` under `%d/%m/%Y`. */
  function Spellings(d: Date): set<string>
    requires ValidDate(d)
  {
    set a, b | a in FieldForms(d.day) && b in FieldForms(d.month) :: a + "/" + b + "/" + Pad4(d.year)
  }

  /** The canonical DD/MM/YYYY text of a date. */
  function FormatDate(d: Date): string
    requires ValidDate(d)
  {
    Pad2(d.day) + "/" + Pad2(d.month) + "/" + Pad4(d.year)
  }

  // ---- properties of the parser ----

  lemma DigitRoundTrip(c: char)
    requires IsDigit(c)
    ensures DigitChar(DigitValue(c)) == c
  {
  }

  lemma Pad2Value(n: nat)
    requires n < 100
    ensures |Pad2(n)| == 2 && AllDigits(Pad2(n))
    ensures 10 * DigitValue(Pad2(n)[0]) + DigitValue(Pad2(n)[1]) == n
  {
  }

  lemma Pad2OfDigits(s: string)
    requires |s| == 2 && AllDigits(s)
    ensures Pad2(10 * DigitValue(s[0]) + DigitValue(s[1])) == s
  {
  }

  /** The value of four digits, written out positionally. */
  lemma FourDigitValue(s: string)
    requires |s| == 4 && AllDigits(s)
    ensures Number(s) == 1000 * DigitValue(s[0]) + 100 * DigitValue(s[1]) + 10 * DigitValue(s[2]) + DigitValue(s[3])
  {
    var s1, s2, s3 := s[..1], s[..2], s[..3];
    assert s1[..0] == [] && s2[..1] == s1 && s3[..2] == s2 && s[..3] == s3;
    assert Number(s1) == DigitValue(s[0]);
    assert Number(s2) == 10 * DigitValue(s[0]) + DigitValue(s[1]);
    assert Number(s3) == 100 * DigitValue(s[0]) + 10 * DigitValue(s[1]) + DigitValue(s[2]);
  }

  lemma Pad4Value(n: nat)
    requires n < 10000
    ensures |Pad4(n)| == 4 && AllDigits(Pad4(n)) && Number(Pad4(n)) == n
  {
    Pad2Value(n / 100);
    Pad2Value(n % 100);
    FourDigitValue(Pad4(n));
  }

  lemma Pad4OfDigits(s: string)
    requires |s| == 4 && AllDigits(s)
    ensures Number(s) < 10000 && Pad4(Number(s)) == s
  {
    FourDigitValue(s);
    var hi, lo := 10 * DigitValue(s[0]) + DigitValue(s[1]), 10 * DigitValue(s[2]) + DigitValue(s[3]);
    assert Number(s) == 100 * hi + lo && lo < 100;
    assert Number(s) / 100 == hi && Number(s) % 100 == lo;
    Pad2OfDigits(s[..2]);
    Pad2OfDigits(s[2..]);
    assert s == s[..2] + s[2..];
  }

  /** A written field followed by '/' reads back as its number and the remaining text. */
  lemma ParseFieldOf(a: string, n: nat, rest: string)
    requires n < 100 && a in FieldForms(n)
    ensures ParseField(a + "/" + rest) == Some((n, rest))
  {
  }

  /** What ParseField consumed is one of the written forms of the number it returned. */
  lemma FieldOf(s: string) returns (a: string)
    requires ParseField(s).Some?
    ensures ParseField(s).value.0 < 100 && a in FieldForms(ParseField(s).value.0)
    ensures s == a + "/" + ParseField(s).value.1
  {
    if |s| >= 2 && IsDigit(s[0]) && s[1] == '/' {
      a := s[..1];
      DigitRoundTrip(s[0]);
      assert a == [DigitChar(DigitValue(s[0]))];
    } else {
      a := s[..2];
      Pad2OfDigits(a);
    }
  }

  /** Whatever the parser accepts is a spelling of the date it returns. */
  lemma ParsedIsSpelling(s: string, d: Date)
    requires ParseDate(s) == Some(d)
    ensures ValidDate(d) && s in Spellings(d)
  {
    var a := FieldOf(s);
    var rest := ParseField(s).value.1;
    var b := FieldOf(rest);
    var year := ParseField(rest).value.1;
    Pad4OfDigits(year);
    assert s == a + "/" + b + "/" + Pad4(d.year);
  }

  /** Every spelling of a valid date is accepted, as that date. */
  lemma SpellingIsParsed(s: string, d: Date)
    requires ValidDate(d) && s in Spellings(d)
    ensures ParseDate(s) == Some(d)
  {
    var a, b :| a in FieldForms(d.day) && b in FieldForms(d.month) && s == a + "/" + b + "/" + Pad4(d.year);
    var rest := b + "/" + Pad4(d.year);
    assert s == a + "/" + rest;
    ParseFieldOf(a, d.day, rest);
    ParseFieldOf(b, d.month, Pad4(d.year));
    Pad4Value(d.year);
  }

  /** The parser's answer for `s`, described by the spelling grammar alone. */
  lemma ParseDateBySpelling(s: string)
    ensures ParseDate(s).Some? ==> s in Spellings(ParseDate(s).value)
    ensures forall d: Date {:trigger Spellings(d)} | ValidDate(d) && s in Spellings(d) :: ParseDate(s) == Some(d)
  {
    if ParseDate(s).Some? {
      ParsedIsSpelling(s, ParseDate(s).value);
    }
    forall d: Date {:trigger Spellings(d)} | ValidDate(d) && s in Spellings(d) ensures ParseDate(s) == Some(d) {
      SpellingIsParsed(s, d);
    }
  }

  /**
    The parser accepts exactly the spellings of valid dates, in both directions:
    a text reads as `d` iff `d` is a real calendar date and the text is one of
    its D/M/YYYY spellings.
  */
  lemma ParseDateExact(s: string, d: Date)
    ensures ParseDate(s) == Some(d) <==> ValidDate(d) && s in Spellings(d)
  {
    if ParseDate(s) == Some(d) {
      ParsedIsSpelling(s, d);
    }
    if ValidDate(d) && s in Spellings(d) {
      SpellingIsParsed(s, d);
    }
  }

  /** Printing a valid date as DD/MM/YYYY and parsing it back gives the date. */
  lemma FormatThenParse(d: Date)
    requires ValidDate(d)
    ensures ParseDate(FormatDate(d)) == Some(d)
  {
    assert FormatDate(d) in Spellings(d);
    ParseDateExact(FormatDate(d), d);
  }

  /** February has 29 days exactly in Gregorian leap years. */
  lemma LeapDay(y: int)
    requires 1 <= y <= 9999
    ensures ValidDate(Date(y, 2, 29)) <==> IsLeapYear(y)
    ensures !ValidDate(Date(y, 2, 30)) && !ValidDate(Date(y, 4, 31)) && ValidDate(Date(y, 12, 31))
  {
  }

  /** Shipment-date cells the parser accepts. */
  lemma ParseDateAccepts()
    ensures ParseDate("25/12/2024") == Some(Date(2024, 12, 25))
    ensures ParseDate("29/02/2024") == Some(Date(2024, 2, 29))
    ensures ParseDate("5/1/2025") == Some(Date(2025, 1, 5))
  {
    assert ParseField("25/12/2024") == Some((25, "12/2024"));
    assert ParseField("12/2024") == Some((12, "2024"));
    assert ParseField("29/02/2024") == Some((29, "02/2024"));
    assert ParseField("02/2024") == Some((2, "2024"));
    assert ParseField("5/1/2025") == Some((5, "1/2025"));
    assert ParseField("1/2025") == Some((1, "2025"));
    FourDigitValue("2024");
    FourDigitValue("2025");
  }

  /** Zero-padded shipment dates are accepted. */
  lemma ParseDateAcceptsPadded()
    ensures ParseDate("05/01/2025") == Some(Date(2025, 1, 5))
    ensures ParseDate("01/01/2025") == Some(Date(2025, 1, 1))
  {
    assert ParseField("05/01/2025") == Some((5, "01/2025"));
    assert ParseField("01/01/2025") == Some((1, "01/2025"));
    assert ParseField("01/2025") == Some((1, "2025"));
    FourDigitValue("2025");
  }

  /** Impossible calendar dates are rejected: day past the end of the month. */
  lemma ParseDateRejectsDayOverflow()
    ensures ParseDate("31/02/2024") == None
    ensures ParseDate("29/02/2023") == None
    ensures ParseDate("29/02/1900") == None
  {
    assert ParseField("31/02/2024") == Some((31, "02/2024"));
    assert ParseField("29/02/2023") == Some((29, "02/2023"));
    assert ParseField("29/02/1900") == Some((29, "02/1900"));
    assert ParseField("02/2024") == Some((2, "2024"));
    assert ParseField("02/2023") == Some((2, "2023"));
    assert ParseField("02/1900") == Some((2, "1900"));
    FourDigitValue("2023");
    FourDigitValue("2024");
    FourDigitValue("1900");
  }

  /** Impossible calendar dates are rejected: month or day out of range. */
  lemma ParseDateRejectsOutOfRange()
    ensures ParseDate("13/13/2024") == None
    ensures ParseDate("00/01/2024") == None
  {
  }

  /** Cells that do not follow D/M/YYYY are rejected. */
  lemma ParseDateRejectsMalformed()
    ensures ParseDate("") == None
    ensures ParseDate("ab/cd/efgh") == None
    ensures ParseDate("2024-12-25") == None
    ensures ParseDate("25/12/24") == None
    ensures ParseDate("123/1/2024") == None
  {
  }
}
