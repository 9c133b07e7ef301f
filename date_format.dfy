/** The dates the pages display. Both formats read the UTC fields of a
    parsed date (parsing is the browser's, so the fields are inputs) and
    print "N/A" when there is no date text at all. */
module DateFormat {
  import opened Wrappers
  import opened Text

  /** The UTC fields of a valid date: the month counted from 0, the day of
      the month from 1. */
  datatype UtcDate = UtcDate(year: int, month: nat, day: nat, hours: nat, minutes: nat)

  predicate ValidUtc(d: UtcDate) {
    d.month < 12 && 1 <= d.day <= 31 && d.hours < 24 && d.minutes < 60
  }

  const NotAvailable: string := "N/A"

  const MonthNames: seq<string> :=
    ["January", "February", "March", "April", "May", "June",
     "July", "August", "September", "October", "November", "December"]

  const ShortMonthNames: seq<string> :=
    ["Jan", "Feb", "Mar", "Apr", "May", "Jun", "Jul", "Aug", "Sep", "Oct", "Nov", "Dec"]

  /** A falsy date text: absent or empty. */
  predicate NoDate(dateString: Option<string>) {
    dateString.None? || dateString.value == ""
  }

  /** "<day>, <year>": the day unpadded, the year as `${year}` prints it. */
  function DayAndYear(d: UtcDate): (r: string)
    ensures |r| > 2 && IsDigit(r[0])
  {
    NatToString(d.day) + ", " + IntToString(d.year)
  }

  /** "<HH>:<MM>", each part padded to two digits. */
  function Clock(d: UtcDate): (r: string)
    requires ValidUtc(d)
    ensures |r| == 5 && r[2] == ':'
    ensures forall i :: 0 <= i < 5 && i != 2 ==> IsDigit(r[i])
    ensures DigitsValue(r[..2]) == d.hours && DigitsValue(r[3..]) == d.minutes
  {
    TwoDigits(d.hours);
    TwoDigits(d.minutes);
    var hh, mm := PadStart2(NatToString(d.hours)), PadStart2(NatToString(d.minutes));
    var r := hh + ":" + mm;
    assert r[..2] == hh && r[3..] == mm;
    assert forall i :: 0 <= i < 2 ==> r[i] == hh[i] && r[i + 3] == mm[i];
    r
  }

  /** `formatDate`: "<Month> <day>, <year> at <HH>:<MM>". */
  function FormatDate(dateString: Option<string>, d: UtcDate): (r: string)
    requires ValidUtc(d)
    ensures NoDate(dateString) ==> r == NotAvailable
    ensures !NoDate(dateString) ==> r == MonthNames[d.month] + " " + DayAndYear(d) + " at " + Clock(d)
  {
    if NoDate(dateString) then NotAvailable
    else MonthNames[d.month] + " " + DayAndYear(d) + " at " + Clock(d)
  }

  /** `formatDateShort`: "<Mon> <day>, <year>". */
  function FormatDateShort(dateString: Option<string>, d: UtcDate): (r: string)
    requires ValidUtc(d)
    ensures NoDate(dateString) ==> r == NotAvailable
    ensures !NoDate(dateString) ==> r == ShortMonthNames[d.month] + " " + DayAndYear(d)
    ensures !NoDate(dateString) ==> |ShortMonthNames[d.month]| == 3
  {
    if NoDate(dateString) then NotAvailable
    else ShortMonthNames[d.month] + " " + DayAndYear(d)
  }

  /** Each short month name is the first three letters of the full one. */
  lemma ShortNamesArePrefixes(m: nat)
    requires m < 12
    ensures ShortMonthNames[m] == MonthNames[m][..3]
  {
  }

  /** The long format is the short one with the month written out and the
      time of day appended. */
  lemma LongExtendsShort(dateString: Option<string>, d: UtcDate)
    requires ValidUtc(d) && !NoDate(dateString)
    ensures FormatDate(dateString, d) ==
            MonthNames[d.month] + FormatDateShort(dateString, d)[3..] + " at " + Clock(d)
  {
    Regroup(FormatDate(dateString, d), FormatDateShort(dateString, d),
            MonthNames[d.month], ShortMonthNames[d.month], DayAndYear(d), Clock(d));
  }

  lemma Regroup(long: string, short: string, month: string, shortMonth: string, dayYear: string, clock: string)
    requires long == month + " " + dayYear + " at " + clock
    requires short == shortMonth + " " + dayYear && |shortMonth| == 3
    ensures long == month + short[3..] + " at " + clock
  {
    assert short[3..] == " " + dayYear;
  }

  /** The month a short month name stands for. */
  function ShortMonthIndex(name: string): (m: nat)
    ensures m <= 12
  {
    if name == "Jan" then 0 else if name == "Feb" then 1 else if name == "Mar" then 2
    else if name == "Apr" then 3 else if name == "May" then 4 else if name == "Jun" then 5
    else if name == "Jul" then 6 else if name == "Aug" then 7 else if name == "Sep" then 8
    else if name == "Oct" then 9 else if name == "Nov" then 10 else if name == "Dec" then 11
    else 12
  }

  lemma ShortMonthIndexInverts(m: nat)
    requires m < 12
    ensures ShortMonthIndex(ShortMonthNames[m]) == m
  {
  }

  /** The short format loses nothing of the date: two valid dates that print
      alike have the same year, month and day. */
  lemma ShortFormatDeterminesDate(dateString: Option<string>, a: UtcDate, b: UtcDate)
    requires ValidUtc(a) && ValidUtc(b) && !NoDate(dateString)
    requires FormatDateShort(dateString, a) == FormatDateShort(dateString, b)
    ensures a.year == b.year && a.month == b.month && a.day == b.day
  {
    var r := FormatDateShort(dateString, a);
    assert r[..3] == ShortMonthNames[a.month];
    assert r[..3] == ShortMonthNames[b.month];
    ShortMonthIndexInverts(a.month);
    ShortMonthIndexInverts(b.month);
    assert r[4..] == DayAndYear(a) && r[4..] == DayAndYear(b);
    DayAndYearDeterminesDate(a, b);
  }

  lemma DayAndYearDeterminesDate(a: UtcDate, b: UtcDate)
    requires DayAndYear(a) == DayAndYear(b)
    ensures a.year == b.year && a.day == b.day
  {
    var ya, yb := ", " + IntToString(a.year), ", " + IntToString(b.year);
    assert DayAndYear(a) == NatToString(a.day) + ya && DayAndYear(b) == NatToString(b.day) + yb;
    assert ya[0] == ',' && yb[0] == ',';
    DigitPrefixUnique(NatToString(a.day), NatToString(b.day), ya, yb);
    NatToStringInjective(a.day, b.day);
    assert ya[2..] == IntToString(a.year) && yb[2..] == IntToString(b.year);
    IntToStringInjective(a.year, b.year);
  }
}
