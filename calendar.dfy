/** Proleptic Gregorian dates and wall-clock times as Python's datetime
    module sees them: day ordinals (date(1, 1, 1) is day 1), the fixed
    formats "%Y-%m-%d" and "%Y-%m-%d %H:%M:%S", and the conversion of a
    Unix timestamp to local time at a fixed UTC offset. */
module Calendar {
  import opened Wrappers
  import opened Text

  datatype Date = Date(year: int, month: int, day: int)

  datatype DateTime = DateTime(date: Date, hour: int, minute: int, second: int)

  predicate IsLeapYear(y: int) {
    y % 4 == 0 && (y % 100 != 0 || y % 400 == 0)
  }

  function DaysInMonth(y: int, m: int): int
    requires 1 <= m <= 12
  {
    if m == 2 then (if IsLeapYear(y) then 29 else 28)
    else if m == 4 || m == 6 || m == 9 || m == 11 then 30
    else 31
  }

  /** A real calendar day (any year, as the arithmetic below works for all). */
  predicate ValidDate(d: Date) {
    1 <= d.month <= 12 && 1 <= d.day <= DaysInMonth(d.year, d.month)
  }

  /** A day that Python's datetime can represent (MINYEAR 1 .. MAXYEAR 9999). */
  predicate InRange(d: Date) {
    ValidDate(d) && 1 <= d.year <= 9999
  }

  predicate ValidDateTime(t: DateTime) {
    ValidDate(t.date) && 0 <= t.hour < 24 && 0 <= t.minute < 60 && 0 <= t.second < 60
  }

  function DaysBeforeYear(y: int): int {
    var p := y - 1;
    365 * p + p / 4 - p / 100 + p / 400
  }

  function DaysBeforeMonth(y: int, m: int): int
    requires 1 <= m <= 12
  {
    var table := [0, 31, 59, 90, 120, 151, 181, 212, 243, 273, 304, 334];
    table[m - 1] + (if m > 2 && IsLeapYear(y) then 1 else 0)
  }

  /** date.toordinal() */
  function DayNumber(d: Date): int
    requires ValidDate(d)
  {
    DaysBeforeYear(d.year) + DaysBeforeMonth(d.year, d.month) + d.day
  }

  lemma YearLength(y: int)
    ensures DaysBeforeYear(y + 1) == DaysBeforeYear(y) + (if IsLeapYear(y) then 366 else 365)
  {
    DivStep4(y - 1);
    DivStep100(y - 1);
    DivStep400(y - 1);
  }

  lemma DivStep4(p: int)
    ensures (p + 1) / 4 == p / 4 + (if (p + 1) % 4 == 0 then 1 else 0)
  {
  }

  lemma DivStep100(p: int)
    ensures (p + 1) / 100 == p / 100 + (if (p + 1) % 100 == 0 then 1 else 0)
  {
  }

  lemma DivStep400(p: int)
    ensures (p + 1) / 400 == p / 400 + (if (p + 1) % 400 == 0 then 1 else 0)
  {
  }

  lemma MonthLength(y: int, m: int)
    requires 1 <= m < 12
    ensures DaysBeforeMonth(y, m + 1) == DaysBeforeMonth(y, m) + DaysInMonth(y, m)
  {
  }

  lemma LastDayOfYear(y: int)
    ensures DaysBeforeMonth(y, 12) + 31 == (if IsLeapYear(y) then 366 else 365)
  {
  }

  /** date + timedelta(days=1) */
  function NextDay(d: Date): (r: Date)
    requires ValidDate(d)
    ensures ValidDate(r) && DayNumber(r) == DayNumber(d) + 1
  {
    if d.day < DaysInMonth(d.year, d.month) then
      Date(d.year, d.month, d.day + 1)
    else if d.month < 12 then
      MonthLength(d.year, d.month);
      Date(d.year, d.month + 1, 1)
    else
      YearLength(d.year);
      LastDayOfYear(d.year);
      Date(d.year + 1, 1, 1)
  }

  /** date - timedelta(days=1) */
  function PrevDay(d: Date): (r: Date)
    requires ValidDate(d)
    ensures ValidDate(r) && DayNumber(r) == DayNumber(d) - 1
  {
    if d.day > 1 then
      Date(d.year, d.month, d.day - 1)
    else if d.month > 1 then
      MonthLength(d.year, d.month - 1);
      Date(d.year, d.month - 1, DaysInMonth(d.year, d.month - 1))
    else
      YearLength(d.year - 1);
      LastDayOfYear(d.year - 1);
      Date(d.year - 1, 12, 31)
  }

  /** date + timedelta(days=n) for any integer n. */
  function ShiftDays(d: Date, n: int): (r: Date)
    requires ValidDate(d)
    ensures ValidDate(r) && DayNumber(r) == DayNumber(d) + n
    decreases if n >= 0 then n else -n
  {
    if n == 0 then d
    else if n > 0 then NextDay(ShiftDays(d, n - 1))
    else PrevDay(ShiftDays(d, n + 1))
  }

  /** Python compares dates field by field. */
  predicate DateBefore(a: Date, b: Date) {
    a.year < b.year
    || (a.year == b.year && a.month < b.month)
    || (a.year == b.year && a.month == b.month && a.day < b.day)
  }

  lemma {:induction false} DaysBeforeYearMonotone(a: int, b: int)
    requires a <= b
    ensures DaysBeforeYear(a) + (b - a) * 365 <= DaysBeforeYear(b)
    decreases b - a
  {
    if a < b {
      DaysBeforeYearMonotone(a, b - 1);
      YearLength(b - 1);
    }
  }

  lemma DayNumberWithinYear(d: Date)
    requires ValidDate(d)
    ensures DaysBeforeYear(d.year) < DayNumber(d) <= DaysBeforeYear(d.year + 1)
  {
    YearLength(d.year);
    if d.month < 12 {
      MonthLength(d.year, d.month);
      assert DaysBeforeMonth(d.year, d.month + 1) <= DaysBeforeMonth(d.year, 12);
    }
  }

  /** Day ordinals order dates exactly as Python's field-by-field comparison does. */
  lemma DayNumberMonotone(a: Date, b: Date)
    requires ValidDate(a) && ValidDate(b)
    ensures DateBefore(a, b) <==> DayNumber(a) < DayNumber(b)
    ensures a == b <==> DayNumber(a) == DayNumber(b)
  {
    if a.year < b.year {
      DayNumberWithinYear(a);
      DayNumberWithinYear(b);
      DaysBeforeYearMonotone(a.year + 1, b.year);
    } else if b.year < a.year {
      DayNumberWithinYear(a);
      DayNumberWithinYear(b);
      DaysBeforeYearMonotone(b.year + 1, a.year);
    } else if a.month != b.month {
      var lo := if a.month < b.month then a else b;
      var hi := if a.month < b.month then b else a;
      MonthsApart(lo.year, lo.month, hi.month);
    }
  }

  lemma {:induction false} MonthsApart(y: int, m1: int, m2: int)
    requires 1 <= m1 < m2 <= 12
    ensures DaysBeforeMonth(y, m1) + DaysInMonth(y, m1) <= DaysBeforeMonth(y, m2)
    decreases m2 - m1
  {
    MonthLength(y, m1);
    if m1 + 1 < m2 {
      MonthsApart(y, m1 + 1, m2);
    }
  }

  // ---------------------------------------------------------------------
  // Times as integers
  // ---------------------------------------------------------------------

  /** Seconds since the start of day 0 of the ordinal count. */
  function Seconds(t: DateTime): int
    requires ValidDate(t.date)
  {
    DayNumber(t.date) * 86400 + t.hour * 3600 + t.minute * 60 + t.second
  }

  /** Python compares datetimes field by field. */
  predicate DateTimeBefore(a: DateTime, b: DateTime) {
    DateBefore(a.date, b.date)
    || (a.date == b.date && (a.hour < b.hour
        || (a.hour == b.hour && (a.minute < b.minute
            || (a.minute == b.minute && a.second < b.second)))))
  }

  /** Comparing the integer times agrees with Python's datetime comparison. */
  lemma SecondsMonotone(a: DateTime, b: DateTime)
    requires ValidDateTime(a) && ValidDateTime(b)
    ensures DateTimeBefore(a, b) <==> Seconds(a) < Seconds(b)
    ensures a == b <==> Seconds(a) == Seconds(b)
  {
    DayNumberMonotone(a.date, b.date);
    var da := DayNumber(a.date);
    var db := DayNumber(b.date);
    if da < db {
      assert da * 86400 + 86400 <= db * 86400;
    } else if db < da {
      assert db * 86400 + 86400 <= da * 86400;
    }
  }

  const Epoch := Date(1970, 1, 1)

  /** datetime.fromtimestamp(ts) in a zone `offset` seconds east of UTC,
      ignoring the datetime range check. */
  function LocalTime(ts: int, offset: int): (r: DateTime)
    ensures ValidDateTime(r)
    ensures Seconds(r) == DayNumber(Epoch) * 86400 + ts + offset
  {
    var t := ts + offset;
    var secs := t % 86400;
    var r := DateTime(ShiftDays(Epoch, t / 86400), secs / 3600, secs % 3600 / 60, secs % 60);
    assert secs == (secs / 3600) * 3600 + (secs % 3600 / 60) * 60 + secs % 60;
    r
  }

  /** datetime.fromtimestamp(ts): None where Python raises because the year
      leaves 1..9999. */
  function FromTimestamp(ts: int, offset: int): (r: Option<DateTime>)
    ensures r.Some? ==> ValidDateTime(r.value) && InRange(r.value.date)
    ensures r.Some? ==> Seconds(r.value) == DayNumber(Epoch) * 86400 + ts + offset
  {
    var t := LocalTime(ts, offset);
    if 1 <= t.date.year <= 9999 then Some(t) else None
  }

  // ---------------------------------------------------------------------
  // Fixed formats
  // ---------------------------------------------------------------------

  /** strftime('%Y-%m-%d'); glibc writes the year without padding. */
  function FormatDate(d: Date): (r: string)
    requires InRange(d)
  {
    Decimal(d.year) + "-" + Pad2(d.month) + "-" + Pad2(d.day)
  }

  /** strftime('%Y-%m-%d %H:%M:%S') */
  function FormatDateTime(t: DateTime): (r: string)
    requires ValidDateTime(t) && InRange(t.date)
  {
    FormatDate(t.date) + " " + Pad2(t.hour) + ":" + Pad2(t.minute) + ":" + Pad2(t.second)
  }

  /** A two- or four-digit numeric field of `s` at [i, j). */
  function Field(s: string, i: nat, j: nat): Option<nat>
    requires i <= j <= |s|
  {
    if AllDigits(s[i..j]) then Some(DigitsValue(s[i..j])) else None
  }

  /** strptime(s, '%Y-%m-%d') for the zero-padded form; None where Python
      raises ValueError. */
  function ParseDate(s: string): (r: Option<Date>)
    ensures r.Some? ==> InRange(r.value)
  {
    if |s| != 10 || s[4] != '-' || s[7] != '-' then None
    else
      var y := Field(s, 0, 4);
      var m := Field(s, 5, 7);
      var d := Field(s, 8, 10);
      if y.None? || m.None? || d.None? then None
      else
        var date := Date(y.value, m.value, d.value);
        if InRange(date) then Some(date) else None
  }

  /** strptime(s, '%Y-%m-%d %H:%M:%S') for the zero-padded form. */
  function ParseDateTime(s: string): (r: Option<DateTime>)
    ensures r.Some? ==> ValidDateTime(r.value) && InRange(r.value.date)
  {
    if |s| != 19 || s[10] != ' ' || s[13] != ':' || s[16] != ':' then None
    else
      var d := ParseDate(s[..10]);
      var h := Field(s, 11, 13);
      var mi := Field(s, 14, 16);
      var sec := Field(s, 17, 19);
      if d.None? || h.None? || mi.None? || sec.None? then None
      else
        var t := DateTime(d.value, h.value, mi.value, sec.value);
        if ValidDateTime(t) then Some(t) else None
  }

  lemma FormatDateShape(d: Date)
    requires InRange(d) && d.year >= 1000
    ensures var s := FormatDate(d);
      |s| == 10 && s[..4] == Decimal(d.year) && s[4] == '-' && s[5..7] == Pad2(d.month)
      && s[7] == '-' && s[8..10] == Pad2(d.day)
  {
    DecimalFourDigits(d.year);
  }

  /** Parsing a formatted date gives it back (four-digit years). */
  lemma DateRoundTrip(d: Date)
    requires InRange(d) && d.year >= 1000
    ensures ParseDate(FormatDate(d)) == Some(d)
  {
    FormatDateShape(d);
    DecimalRoundTrip(d.year);
  }

  /** Parsing a formatted time gives it back (four-digit years). */
  lemma DateTimeRoundTrip(t: DateTime)
    requires ValidDateTime(t) && InRange(t.date) && t.date.year >= 1000
    ensures ParseDateTime(FormatDateTime(t)) == Some(t)
  {
    var s := FormatDateTime(t);
    FormatDateShape(t.date);
    assert s[..10] == FormatDate(t.date);
    DateRoundTrip(t.date);
    assert s[11..13] == Pad2(t.hour);
    assert s[14..16] == Pad2(t.minute);
    assert s[17..19] == Pad2(t.second);
  }

  /** The latest day datetime can hold; adding a day to it overflows. */
  const MaxDate := Date(9999, 12, 31)

  /** A day between two representable days is representable. */
  lemma BetweenInRange(a: Date, d: Date, b: Date)
    requires InRange(a) && InRange(b) && ValidDate(d)
    requires DayNumber(a) <= DayNumber(d) <= DayNumber(b)
    ensures InRange(d)
  {
    DayNumberMonotone(d, a);
    DayNumberMonotone(b, d);
  }

  /** Every representable day but the last has a representable successor. */
  lemma NextDayInRange(d: Date)
    requires InRange(d) && d != MaxDate
    ensures InRange(NextDay(d))
  {
  }

  /** Distinct days are written differently. */
  lemma FormatDateInjective(a: Date, b: Date)
    requires InRange(a) && InRange(b) && FormatDate(a) == FormatDate(b)
    ensures a == b
  {
    var s := FormatDate(a);
    var ya := Decimal(a.year);
    var yb := Decimal(b.year);
    assert |ya| == |yb|;
    assert ya == s[..|ya|] == yb;
    DecimalRoundTrip(a.year);
    DecimalRoundTrip(b.year);
    var n := |s|;
    assert Pad2(a.month) == s[n - 5..n - 3] == Pad2(b.month);
    assert Pad2(a.day) == s[n - 2..] == Pad2(b.day);
  }
}
