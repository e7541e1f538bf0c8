/**
 * Calendar dates and the two textual date formats of src/puzzle.rs:6-10,
 * "%a, %b %e, %Y" (e.g. "Wed, Aug 30, 2023") and "%A, %B %e, %Y"
 * (e.g. "Wednesday, August 30, 2023"), parsed the way chrono's
 * `NaiveDate::parse_from_str` reads them: item by item, left to right.
 *
 *  - `%a` / `%b`: exactly three letters naming a weekday / month.
 *  - `%A` / `%B`: the three-letter name, then the rest of the full name if it follows.
 *  - `,`: that literal character.
 *  - a space in the format: any run of white space, possibly empty.
 *  - `%e`: white space, then one or two digits.
 *  - `%Y`: white space, then one to four digits, or a sign and any number of digits.
 *  - After the last item nothing may remain; the date must exist and fall on the parsed weekday.
 */
module Dates {
  import opened Wrappers

  datatype Date = Date(year: int, month: int, day: int)

  /** The years chrono's `NaiveDate` can represent. */
  const MinYear: int := -262144
  const MaxYear: int := 262143

  predicate IsLeapYear(year: int) {
    year % 4 == 0 && (year % 100 != 0 || year % 400 == 0)
  }

  function DaysInMonth(year: int, month: int): (n: int)
    requires 1 <= month <= 12
    ensures 28 <= n <= 31
  {
    if month == 2 then (if IsLeapYear(year) then 29 else 28)
    else if month == 4 || month == 6 || month == 9 || month == 11 then 30
    else 31
  }

  /** A day of the proleptic Gregorian calendar within chrono's range. */
  predicate ValidDate(d: Date) {
    MinYear <= d.year <= MaxYear && 1 <= d.month <= 12 && 1 <= d.day <= DaysInMonth(d.year, d.month)
  }

  const MonthOffsets: seq<int> := [0, 3, 2, 5, 0, 3, 5, 1, 4, 6, 2, 4]

  /**
   * The day of the week, 0 for Sunday to 6 for Saturday (Sakamoto's method;
   * `/` and `%` with a positive divisor round towards minus infinity here, as the method needs).
   */
  function Weekday(d: Date): (w: int)
    requires ValidDate(d)
    ensures 0 <= w < 7
  {
    DayCount(d) % 7
  }

  /** The sum Sakamoto's method reduces modulo 7. */
  function DayCount(d: Date): int
    requires ValidDate(d)
  {
    var y := if d.month < 3 then d.year - 1 else d.year;
    y + y / 4 - y / 100 + y / 400 + MonthOffsets[d.month - 1] + d.day
  }

  /** `d` comes strictly before `e` in the calendar. */
  predicate Before(d: Date, e: Date) {
    d.year < e.year || (d.year == e.year && (d.month < e.month || (d.month == e.month && d.day < e.day)))
  }

  /** The last day chrono's `NaiveDate` can represent. */
  predicate IsLastDay(d: Date) {
    d.year == MaxYear && d.month == 12 && d.day == 31
  }

  /** The day after `d`: the next day of the month, else the first of the next month or year. */
  function NextDay(d: Date): (r: Date)
    requires ValidDate(d) && !IsLastDay(d)
    ensures ValidDate(r) && Before(d, r)
  {
    if d.day < DaysInMonth(d.year, d.month) then Date(d.year, d.month, d.day + 1)
    else if d.month < 12 then Date(d.year, d.month + 1, 1)
    else Date(d.year + 1, 1, 1)
  }

  /**
   * The weekday formula agrees with the calendar: from each day to the next,
   * across month and year ends and leap days, the weekday advances by one.
   */
  lemma WeekdayNext(d: Date)
    requires ValidDate(d) && !IsLastDay(d)
    ensures Weekday(NextDay(d)) == (Weekday(d) + 1) % 7
  {
    CountStep(d);
    ModStep(DayCount(d), DayCount(NextDay(d)));
  }

  /** From one day to the next the count grows by one, or falls by 27 or 34 at a month's end. */
  lemma CountStep(d: Date)
    requires ValidDate(d) && !IsLastDay(d)
    ensures DayCount(NextDay(d)) - DayCount(d) in {1, -27, -34}
  {
    if d.day < DaysInMonth(d.year, d.month) {
    } else if d.month == 2 {
      YearTerms(d.year);
    } else if d.month == 12 {
    } else {
      assert NextDay(d) == Date(d.year, d.month + 1, 1);
    }
  }

  /** A step of 1, -27 or -34 advances the remainder modulo 7 by one. */
  lemma ModStep(a: int, b: int)
    requires b - a in {1, -27, -34}
    ensures b % 7 == (a % 7 + 1) % 7
  {
  }

  /** Sakamoto's year terms grow by one from one year to the next, and by two into a leap year. */
  lemma YearTerms(y: int)
    ensures (y + y / 4 - y / 100 + y / 400) - ((y - 1) + (y - 1) / 4 - (y - 1) / 100 + (y - 1) / 400)
         == if IsLeapYear(y) then 2 else 1
  {
    FloorStep4(y);
    FloorStep100(y);
    FloorStep400(y);
  }

  /** Rounding down, `y / k` moves past `(y - 1) / k` exactly when `k` divides `y`. */
  lemma FloorStep4(y: int)
    ensures y / 4 - (y - 1) / 4 == if y % 4 == 0 then 1 else 0
  {
    var q := y / 4;
    if y % 4 == 0 {
      assert y - 1 == 4 * (q - 1) + 3;
    } else {
      assert y - 1 == 4 * q + (y % 4 - 1);
    }
  }

  lemma FloorStep100(y: int)
    ensures y / 100 - (y - 1) / 100 == if y % 100 == 0 then 1 else 0
    ensures y % 100 == 0 ==> y % 4 == 0
  {
    var q := y / 100;
    if y % 100 == 0 {
      assert y - 1 == 100 * (q - 1) + 99;
      var t := 25 * q - y / 4;
      assert 4 * t == y % 4;
    } else {
      assert y - 1 == 100 * q + (y % 100 - 1);
    }
  }

  lemma FloorStep400(y: int)
    ensures y / 400 - (y - 1) / 400 == if y % 400 == 0 then 1 else 0
    ensures y % 400 == 0 ==> y % 100 == 0
  {
    var q := y / 400;
    if y % 400 == 0 {
      assert y - 1 == 400 * (q - 1) + 399;
      var t := 4 * q - y / 100;
      assert 100 * t == y % 100;
    } else {
      assert y - 1 == 400 * q + (y % 400 - 1);
    }
  }

  // ---------------------------------------------------------------------
  // Name tables
  // ---------------------------------------------------------------------

  /** Three-letter weekday names, Sunday first, and what completes each full name. */
  const ShortWeekdays: seq<string> := ["Sun", "Mon", "Tue", "Wed", "Thu", "Fri", "Sat"]
  const WeekdaySuffixes: seq<string> := ["day", "day", "sday", "nesday", "rsday", "day", "urday"]

  /** Three-letter month names, January first, and what completes each full name. */
  const ShortMonths: seq<string> := ["Jan", "Feb", "Mar", "Apr", "May", "Jun", "Jul", "Aug", "Sep", "Oct", "Nov", "Dec"]
  const MonthSuffixes: seq<string> := ["uary", "ruary", "ch", "il", "", "e", "y", "ust", "tember", "ober", "ember", "ember"]

  /** `SHORT_DATE_FMT` uses `%a` and `%b`; `LONG_DATE_FMT` uses `%A` and `%B`. */
  datatype DateFormat = Short | Long

  function WeekdayName(format: DateFormat, w: nat): string
    requires w < 7
  {
    if format == Short then ShortWeekdays[w] else ShortWeekdays[w] + WeekdaySuffixes[w]
  }

  function MonthName(format: DateFormat, m0: nat): string
    requires m0 < 12
  {
    if format == Short then ShortMonths[m0] else ShortMonths[m0] + MonthSuffixes[m0]
  }

  // ---------------------------------------------------------------------
  // Scanning
  // ---------------------------------------------------------------------

  /** A value read from the front of the input, and the input left after it. */
  datatype Scanned<T> = Scanned(value: T, rest: string)

  predicate IsDigit(c: char) {
    '0' <= c <= '9'
  }

  /** White space as `trim_start` sees it: the characters with the Unicode White_Space property. */
  predicate IsSpace(c: char) {
    '\t' <= c <= '\r' || c == ' ' || c == '\U{85}' || c == '\U{A0}' || c == '\U{1680}'
    || '\U{2000}' <= c <= '\U{200A}' || c == '\U{2028}' || c == '\U{2029}' || c == '\U{202F}'
    || c == '\U{205F}' || c == '\U{3000}'
  }

  function DigitValue(c: char): int
    requires IsDigit(c)
  {
    c as int - '0' as int
  }

  function DigitChar(n: int): (c: char)
    requires 0 <= n < 10
    ensures IsDigit(c) && DigitValue(c) == n
  {
    ('0' as int + n) as char
  }

  /** The leading white space removed. */
  function Trim(s: string): (r: string)
    ensures |r| <= |s|
    ensures r == [] || !IsSpace(r[0])
  {
    if s != [] && IsSpace(s[0]) then Trim(s[1..]) else s
  }

  /** `Trim` removes exactly the leading white space: what it drops is white space, and the rest of `s` is kept. */
  lemma {:induction false} TrimExact(s: string)
    ensures Trim(s) == s[|s| - |Trim(s)|..]
    ensures forall i :: 0 <= i < |s| - |Trim(s)| ==> IsSpace(s[i])
  {
    if s != [] && IsSpace(s[0]) {
      var t := s[1..];
      TrimExact(t);
      assert t[|t| - |Trim(t)|..] == s[|s| - |Trim(s)|..];
      forall i | 0 < i < |s| - |Trim(s)| ensures IsSpace(s[i]) {
        assert s[i] == t[i - 1];
      }
    }
  }

  /** The first index of `token` in `names`. */
  function IndexOf(names: seq<string>, token: string): (r: Option<nat>)
    ensures r.Some? ==> r.value < |names| && names[r.value] == token
    ensures r.None? ==> token !in names
  {
    if names == [] then None
    else if names[0] == token then Some(0)
    else match IndexOf(names[1..], token)
      case Some(i) => Some(i + 1)
      case None => None
  }

  /** `%a` / `%b`: the first three characters must be one of the three-letter names. */
  function ScanShortName(names: seq<string>, s: string): (r: Option<Scanned<nat>>)
    ensures r.Some? ==> r.value.value < |names| && s == names[r.value.value] + r.value.rest
  {
    if |s| < 3 then None
    else
      var i :- IndexOf(names, s[..3]);
      assert s == s[..3] + s[3..];
      Some(Scanned(i, s[3..]))
  }

  /** `%A` / `%B`: a three-letter name, then the rest of the full name when it follows. */
  function ScanShortOrLongName(names: seq<string>, suffixes: seq<string>, s: string): (r: Option<Scanned<nat>>)
    requires |suffixes| == |names|
    ensures r.Some? ==> r.value.value < |names|
    ensures r.Some? ==>
      || s == names[r.value.value] + r.value.rest
      || s == names[r.value.value] + (suffixes[r.value.value] + r.value.rest)
  {
    var short :- ScanShortName(names, s);
    match DropPrefix(suffixes[short.value], short.rest)
    case Some(rest) => Some(Scanned(short.value, rest))
    case None => Some(short)
  }

  /** `s` without its leading `prefix`, if it starts with it. */
  function DropPrefix(prefix: string, s: string): (r: Option<string>)
    ensures r.Some? ==> s == prefix + r.value
  {
    if prefix == [] then Some(s)
    else if s != [] && s[0] == prefix[0] then
      match DropPrefix(prefix[1..], s[1..])
      case Some(rest) => Some(rest)
      case None => None
    else None
  }

  function ScanWeekday(format: DateFormat, s: string): (r: Option<Scanned<nat>>)
    ensures r.Some? ==> r.value.value < 7
  {
    if format == Short then ScanShortName(ShortWeekdays, s)
    else ScanShortOrLongName(ShortWeekdays, WeekdaySuffixes, s)
  }

  /** Reads a month as its zero-based index. */
  function ScanMonth(format: DateFormat, s: string): (r: Option<Scanned<nat>>)
    ensures r.Some? ==> r.value.value < 12
  {
    if format == Short then ScanShortName(ShortMonths, s)
    else ScanShortOrLongName(ShortMonths, MonthSuffixes, s)
  }

  /** A literal character of the format. */
  function ScanChar(c: char, s: string): Option<string> {
    if s != [] && s[0] == c then Some(s[1..]) else None
  }

  /** How many digits lead `s`, counting at most `max`. */
  function DigitRun(s: string, max: nat): (n: nat)
    ensures n <= |s| && n <= max
    ensures forall i :: 0 <= i < n ==> IsDigit(s[i])
  {
    if s == [] || max == 0 || !IsDigit(s[0]) then 0 else 1 + DigitRun(s[1..], max - 1)
  }

  /** The number a string of decimal digits denotes. */
  function DigitsValue(ds: string): (v: nat)
    requires forall i :: 0 <= i < |ds| ==> IsDigit(ds[i])
  {
    if ds == [] then 0 else DigitsValue(ds[..|ds| - 1]) * 10 + DigitValue(ds[|ds| - 1]) as nat
  }

  /** An unsigned number of one to `max` digits. */
  function ScanNumber(s: string, max: nat): (r: Option<Scanned<int>>)
    ensures r.Some? ==> r.value.value >= 0
  {
    var n := DigitRun(s, max);
    if n == 0 then None else Some(Scanned(DigitsValue(s[..n]) as int, s[n..]))
  }

  /** `%e`: white space, then one or two digits. */
  function ScanDay(s: string): Option<Scanned<int>> {
    ScanNumber(Trim(s), 2)
  }

  /** `%Y`: white space, then a sign and any number of digits, or one to four digits. */
  function ScanYear(s: string): Option<Scanned<int>> {
    var t := Trim(s);
    if t != [] && t[0] == '-' then
      var n :- ScanNumber(t[1..], |t|);
      Some(Scanned(-n.value, n.rest))
    else if t != [] && t[0] == '+' then ScanNumber(t[1..], |t|)
    else ScanNumber(t, 4)
  }

  /** The fields read from the text, before they are checked against the calendar. */
  datatype Fields = Fields(weekday: nat, year: int, month: int, day: int)

  /** The items of the format, read left to right; nothing may be left over. */
  function ScanFields(format: DateFormat, s: string): (r: Option<Fields>)
    ensures r.Some? ==> r.value.weekday < 7 && 1 <= r.value.month <= 12
  {
    FieldsAfter(ScanHead(format, s))
  }

  /** The rest of the read once the weekday and the month are known: the month counts from 1. */
  function FieldsAfter(head: Option<Scanned<(nat, nat)>>): (r: Option<Fields>)
    ensures r.Some? ==> head.Some? && r.value.weekday == head.value.value.0 && r.value.month == head.value.value.1 + 1
  {
    match head
    case None => None
    case Some(h) => ScanTail(h.value.0, h.value.1 + 1, h.rest)
  }

  /** The items the formats differ in, `"%a, %b"` or `"%A, %B"`: the weekday and the zero-based month. */
  function ScanHead(format: DateFormat, s: string): (r: Option<Scanned<(nat, nat)>>)
    ensures r.Some? ==> r.value.value.0 < 7 && r.value.value.1 < 12
  {
    var weekday :- ScanWeekday(format, s);
    var s1 :- ScanChar(',', weekday.rest);
    var month :- ScanMonth(format, Trim(s1));
    Some(Scanned((weekday.value, month.value), month.rest))
  }

  /** The items both formats share after the month, `" %e, %Y"`, and the end of the text. */
  function ScanTail(weekday: nat, month: int, s: string): (r: Option<Fields>)
    ensures r.Some? ==> r.value.weekday == weekday && r.value.month == month
  {
    var day :- ScanDay(Trim(s));
    var s2 :- ScanChar(',', day.rest);
    var year :- ScanYear(Trim(s2));
    if year.rest == [] then Some(Fields(weekday, year.value, month, day.value)) else None
  }

  /** The fields make a date only when that day exists and falls on the weekday read. */
  function Resolve(f: Fields): (r: Option<Date>)
    ensures r.Some? <==> ValidDate(Date(f.year, f.month, f.day)) && Weekday(Date(f.year, f.month, f.day)) == f.weekday
    ensures r.Some? ==> r.value == Date(f.year, f.month, f.day)
  {
    var d := Date(f.year, f.month, f.day);
    if ValidDate(d) && Weekday(d) == f.weekday then Some(d) else None
  }

  /** `NaiveDate::parse_from_str(s, fmt).ok()` for the two formats. */
  function Parse(format: DateFormat, s: string): (r: Option<Date>)
    ensures r.Some? ==> ValidDate(r.value)
  {
    var fields :- ScanFields(format, s);
    Resolve(fields)
  }

  /** A text that does not start with a three-letter weekday name is no date, in either format. */
  lemma NoWeekdayNoDate(format: DateFormat, s: string)
    requires |s| >= 3 ==> s[..3] !in ShortWeekdays
    ensures Parse(format, s).None?
  {
    assert ScanShortName(ShortWeekdays, s).None?;
    assert ScanHead(format, s).None?;
  }

  // ---------------------------------------------------------------------
  // Formatting, the inverse of parsing
  // ---------------------------------------------------------------------

  /** `%e`: the day padded with a space to two characters. */
  function PaddedDay(day: int): string
    requires 1 <= day <= 31
  {
    if day < 10 then [' ', DigitChar(day)] else [DigitChar(day / 10), DigitChar(day % 10)]
  }

  /** `%Y` for years 0 to 9999: four digits, zero-padded. */
  function FourDigits(year: int): string
    requires 0 <= year <= 9999
  {
    [DigitChar(year / 1000), DigitChar(year / 100 % 10), DigitChar(year / 10 % 10), DigitChar(year % 10)]
  }

  /** `d.format(fmt)` for the two formats. */
  function Format(format: DateFormat, d: Date): string
    requires ValidDate(d) && 0 <= d.year <= 9999
  {
    WeekdayName(format, Weekday(d)) + (", " + (MonthName(format, d.month - 1) + (" " + (PaddedDay(d.day) + (", " + FourDigits(d.year))))))
  }

  // ---------------------------------------------------------------------
  // Parsing a formatted date gives the date back
  // ---------------------------------------------------------------------

  lemma {:induction false} IndexOfAt(names: seq<string>, i: nat)
    requires i < |names|
    requires forall j :: 0 <= j < i ==> names[j] != names[i]
    ensures IndexOf(names, names[i]) == Some(i)
  {
    if i > 0 {
      var tail := names[1..];
      assert tail[i - 1] == names[i];
      IndexOfAt(tail, i - 1);
    }
  }

  /** Every short name is three letters long and no two are alike. */
  lemma ShortNameTables()
    ensures forall i :: 0 <= i < 7 ==> |ShortWeekdays[i]| == 3
    ensures forall i, j :: 0 <= j < i < 7 ==> ShortWeekdays[j] != ShortWeekdays[i]
    ensures forall i :: 0 <= i < 12 ==> |ShortMonths[i]| == 3
    ensures forall i, j :: 0 <= j < i < 12 ==> ShortMonths[j] != ShortMonths[i]
    ensures forall i :: 0 <= i < 12 ==> 'A' <= ShortMonths[i][0] <= 'Z'
  {
  }

  lemma ScanShortNameAt(names: seq<string>, i: nat, rest: string)
    requires i < |names| && |names[i]| == 3
    requires forall j :: 0 <= j < i ==> names[j] != names[i]
    ensures ScanShortName(names, names[i] + rest) == Some(Scanned(i, rest))
  {
    var s := names[i] + rest;
    assert s[..3] == names[i];
    assert s[3..] == rest;
    IndexOfAt(names, i);
  }

  lemma {:induction false} DropPrefixOf(prefix: string, rest: string)
    ensures DropPrefix(prefix, prefix + rest) == Some(rest)
  {
    if prefix != [] {
      assert (prefix + rest)[1..] == prefix[1..] + rest;
      DropPrefixOf(prefix[1..], rest);
    } else {
      assert prefix + rest == rest;
    }
  }

  lemma ScanWeekdayAt(format: DateFormat, w: nat, rest: string)
    requires w < 7
    ensures ScanWeekday(format, WeekdayName(format, w) + rest) == Some(Scanned(w, rest))
  {
    ShortNameTables();
    var suffix := WeekdaySuffixes[w];
    if format == Short {
      ScanShortNameAt(ShortWeekdays, w, rest);
    } else {
      assert WeekdayName(format, w) + rest == ShortWeekdays[w] + (suffix + rest);
      ScanShortNameAt(ShortWeekdays, w, suffix + rest);
      DropPrefixOf(suffix, rest);
    }
  }

  lemma ScanMonthAt(format: DateFormat, m0: nat, rest: string)
    requires m0 < 12
    ensures ScanMonth(format, MonthName(format, m0) + rest) == Some(Scanned(m0, rest))
  {
    ShortNameTables();
    var suffix := MonthSuffixes[m0];
    if format == Short {
      ScanShortNameAt(ShortMonths, m0, rest);
    } else {
      assert MonthName(format, m0) + rest == ShortMonths[m0] + (suffix + rest);
      ScanShortNameAt(ShortMonths, m0, suffix + rest);
      DropPrefixOf(suffix, rest);
    }
  }

  lemma {:induction false} DigitRunOf(ds: string, rest: string, max: nat)
    requires forall i :: 0 <= i < |ds| ==> IsDigit(ds[i])
    requires |ds| <= max
    requires |ds| == max || rest == [] || !IsDigit(rest[0])
    ensures DigitRun(ds + rest, max) == |ds|
  {
    if ds != [] {
      assert (ds + rest)[1..] == ds[1..] + rest;
      DigitRunOf(ds[1..], rest, max - 1);
    } else {
      assert ds + rest == rest;
    }
  }

  /** A run of digits that ends where the digits stop, or at the width limit, is read whole. */
  lemma ScanNumberOf(ds: string, rest: string, max: nat)
    requires forall i :: 0 <= i < |ds| ==> IsDigit(ds[i])
    requires 1 <= |ds| <= max
    requires |ds| == max || rest == [] || !IsDigit(rest[0])
    ensures ScanNumber(ds + rest, max) == Some(Scanned(DigitsValue(ds) as int, rest))
  {
    DigitRunOf(ds, rest, max);
    assert (ds + rest)[..|ds|] == ds;
    assert (ds + rest)[|ds|..] == rest;
  }

  /** The digits of `%e` and of `%Y` denote the day and the year. */
  lemma DayDigits(day: int) returns (ds: string)
    requires 1 <= day <= 31
    ensures forall i :: 0 <= i < |ds| ==> IsDigit(ds[i])
    ensures 1 <= |ds| <= 2 && DigitsValue(ds) == day
    ensures PaddedDay(day) == (if day < 10 then " " else "") + ds
  {
    if day < 10 {
      ds := [DigitChar(day)];
      assert ds[..0] == [];
    } else {
      ds := [DigitChar(day / 10), DigitChar(day % 10)];
      assert ds[..1] == [DigitChar(day / 10)];
      assert ds[..1][..0] == [];
      assert DigitsValue(ds[..1]) == day / 10;
    }
  }

  lemma YearDigits(year: int)
    requires 0 <= year <= 9999
    ensures DigitsValue(FourDigits(year)) == year
  {
    var ys := FourDigits(year);
    DecimalPrefixes(year);
    assert ys[..3][..2][..1][..0] == [];
    assert DigitsValue(ys[..1]) == year / 1000;
    assert ys[..2][..1] == ys[..1];
    assert DigitsValue(ys[..2]) == year / 100;
    assert ys[..3][..2] == ys[..2];
    assert DigitsValue(ys[..3]) == year / 10;
    assert ys[..4] == ys;
  }

  /** Each decimal prefix of a year is ten times the shorter one plus the next digit. */
  lemma DecimalPrefixes(year: int)
    requires 0 <= year <= 9999
    ensures year / 100 == year / 1000 * 10 + year / 100 % 10
    ensures year / 10 == year / 100 * 10 + year / 10 % 10
    ensures year == year / 10 * 10 + year % 10
  {
  }

  lemma TrimSpace(s: string)
    ensures Trim(" " + s) == Trim(s)
  {
    assert (" " + s)[1..] == s;
  }

  lemma TrimNonSpace(s: string)
    requires s == [] || !IsSpace(s[0])
    ensures Trim(s) == s
  {
  }

  /** The separator `", "` of the formats: the comma, then the space the next item trims. */
  lemma CommaSpace(t: string)
    ensures ScanChar(',', ", " + t) == Some(" " + t)
  {
    assert (", " + t)[1..] == " " + t;
  }

  /** The space before the month name is skipped, and the name is not. */
  lemma TrimBeforeMonth(format: DateFormat, m0: nat, rest: string)
    requires m0 < 12
    ensures Trim(" " + (MonthName(format, m0) + rest)) == MonthName(format, m0) + rest
  {
    ShortNameTables();
    var t := MonthName(format, m0) + rest;
    assert t[0] == ShortMonths[m0][0];
    TrimSpace(t);
    TrimNonSpace(t);
  }

  /** One or two leading spaces, then the digits of the day. */
  lemma ScanDayText(pad: string, ds: string, rest: string)
    requires pad == " " || pad == "  "
    requires forall i :: 0 <= i < |ds| ==> IsDigit(ds[i])
    requires 1 <= |ds| <= 2
    requires rest == [] || !IsDigit(rest[0])
    ensures ScanDay(Trim(pad + (ds + rest))) == Some(Scanned(DigitsValue(ds) as int, rest))
  {
    var u := ds + rest;
    TrimNonSpace(u);
    if pad == " " {
      TrimSpace(u);
    } else {
      assert pad + u == " " + (" " + u);
      TrimSpace(" " + u);
      TrimSpace(u);
    }
    ScanNumberOf(ds, rest, 2);
  }

  /** `%e` reads back the padded day, whatever non-digit text follows it. */
  lemma ScanDayPadded(day: int, rest: string)
    requires 1 <= day <= 31
    requires rest == [] || !IsDigit(rest[0])
    ensures ScanDay(Trim(" " + (PaddedDay(day) + rest))) == Some(Scanned(day, rest))
  {
    var ds := DayDigits(day);
    var space := if day < 10 then " " else "";
    Regroup(" ", space, ds, rest);
    ScanDayText(" " + space, ds, rest);
  }

  lemma Regroup(a: string, b: string, c: string, d: string)
    ensures a + ((b + c) + d) == (a + b) + (c + d)
  {
  }

  /** `%Y` reads back the four digits it wrote, and nothing is left. */
  lemma ScanYearFour(year: int)
    requires 0 <= year <= 9999
    ensures ScanYear(Trim(" " + FourDigits(year))) == Some(Scanned(year, []))
  {
    var ys := FourDigits(year);
    assert (" " + ys)[1..] == ys;
    assert Trim(" " + ys) == ys;
    ScanNumberOf(ys, [], 4);
    YearDigits(year);
    assert ys + [] == ys;
  }

  /** The steps of `ScanHead`, each read off separately. */
  lemma HeadSteps(format: DateFormat, s: string, w: nat, r1: string, s1: string, m0: nat, r2: string)
    requires ScanWeekday(format, s) == Some(Scanned(w, r1))
    requires ScanChar(',', r1) == Some(s1)
    requires ScanMonth(format, Trim(s1)) == Some(Scanned(m0, r2))
    ensures ScanHead(format, s) == Some(Scanned((w, m0), r2))
  {
  }

  /** The steps of `ScanTail`, each read off separately. */
  lemma TailSteps(w: nat, month: int, r2: string, day: int, r4: string, s2: string, year: int)
    requires ScanDay(Trim(r2)) == Some(Scanned(day, r4))
    requires ScanChar(',', r4) == Some(s2)
    requires ScanYear(Trim(s2)) == Some(Scanned(year, []))
    ensures ScanTail(w, month, r2) == Some(Fields(w, year, month, day))
  {
  }

  /** The weekday, the comma and the month name read back, up to the text after the month. */
  lemma FormattedHead(format: DateFormat, w: nat, m0: nat, r3: string)
    requires w < 7 && m0 < 12
    ensures ScanHead(format, WeekdayName(format, w) + (", " + (MonthName(format, m0) + r3)))
      == Some(Scanned((w, m0), r3))
  {
    var r2 := MonthName(format, m0) + r3;
    var r1 := ", " + r2;
    ScanWeekdayAt(format, w, r1);
    CommaSpace(r2);
    TrimBeforeMonth(format, m0, r3);
    ScanMonthAt(format, m0, r3);
    HeadSteps(format, WeekdayName(format, w) + r1, w, r1, " " + r2, m0, r3);
  }

  /** The padded day, the comma and the four-digit year read back, with nothing left over. */
  lemma FormattedTail(w: nat, month: int, day: int, year: int)
    requires 1 <= day <= 31 && 0 <= year <= 9999
    ensures ScanTail(w, month, " " + (PaddedDay(day) + (", " + FourDigits(year)))) == Some(Fields(w, year, month, day))
  {
    var r4 := ", " + FourDigits(year);
    ScanDayPadded(day, r4);
    CommaSpace(FourDigits(year));
    ScanYearFour(year);
    TailSteps(w, month, " " + (PaddedDay(day) + r4), day, r4, " " + FourDigits(year), year);
  }

  /** Reading back the text of a formatted date gives back its fields. */
  lemma ScanFormatted(format: DateFormat, w: nat, m0: nat, day: int, year: int)
    requires w < 7 && m0 < 12 && 1 <= day <= 31 && 0 <= year <= 9999
    ensures ScanFields(format, WeekdayName(format, w) + (", " + (MonthName(format, m0) + (" " + (PaddedDay(day) + (", " + FourDigits(year)))))))
      == Some(Fields(w, year, m0 + 1, day))
  {
    FormattedHead(format, w, m0, " " + (PaddedDay(day) + (", " + FourDigits(year))));
    FormattedTail(w, m0 + 1, day, year);
  }

  /**
   * Parsing what formatting produced gives the date back, in either format:
   * `parse_from_str(d.format(fmt), fmt) == Ok(d)` for the years `%Y` writes as four digits.
   */
  lemma ParseFormat(format: DateFormat, d: Date)
    requires ValidDate(d) && 0 <= d.year <= 9999
    ensures Parse(format, Format(format, d)) == Some(d)
  {
    ScanFormatted(format, Weekday(d), d.month - 1, d.day, d.year);
  }



  // ---------------------------------------------------------------------
  // The long format accepts what the short one does
  // ---------------------------------------------------------------------

  predicate IsLower(c: char) {
    'a' <= c <= 'z'
  }

  /** Every completion of a full weekday name is a lower-case word; a month's may be empty ("May"). */
  lemma SuffixTables()
    ensures forall i :: 0 <= i < 7 ==> WeekdaySuffixes[i] != [] && IsLower(WeekdaySuffixes[i][0])
    ensures forall i :: 0 <= i < 12 ==> MonthSuffixes[i] == [] || IsLower(MonthSuffixes[i][0])
  {
  }

  /** `%A` reads what `%a` reads, when no lower-case letter follows the three-letter name. */
  lemma ShortOrLongAgrees(names: seq<string>, suffixes: seq<string>, s: string)
    requires |suffixes| == |names|
    requires forall i :: 0 <= i < |suffixes| ==> suffixes[i] == [] || IsLower(suffixes[i][0])
    requires ScanShortName(names, s).Some?
    requires var rest := ScanShortName(names, s).value.rest; rest == [] || !IsLower(rest[0])
    ensures ScanShortOrLongName(names, suffixes, s) == ScanShortName(names, s)
  {
    var short := ScanShortName(names, s).value;
    var suffix := suffixes[short.value];
    if suffix == [] {
      assert DropPrefix(suffix, short.rest) == Some(short.rest);
    } else {
      assert DropPrefix(suffix, short.rest) == None;
    }
  }

  /** What follows the month in a successful read is white space or a digit. */
  lemma DayFollows(t: string)
    requires ScanDay(Trim(t)).Some?
    ensures t != [] && (IsSpace(t[0]) || IsDigit(t[0]))
  {
    var u := Trim(t);
    assert DigitRun(u, 2) > 0;
    if t != [] && !IsSpace(t[0]) {
      TrimNonSpace(t);
    }
  }

  /** The weekday is followed by a comma, so `%A` reads no more of it than `%a` does. */
  lemma WeekdayLong(s: string)
    requires ScanWeekday(Short, s).Some?
    requires ScanChar(',', ScanWeekday(Short, s).value.rest).Some?
    ensures ScanWeekday(Long, s) == ScanWeekday(Short, s)
  {
    SuffixTables();
    ShortOrLongAgrees(ShortWeekdays, WeekdaySuffixes, s);
  }

  /** The month is followed by the day, so `%B` reads no more of it than `%b` does. */
  lemma MonthLong(t: string)
    requires ScanMonth(Short, t).Some?
    requires ScanDay(Trim(ScanMonth(Short, t).value.rest)).Some?
    ensures ScanMonth(Long, t) == ScanMonth(Short, t)
  {
    SuffixTables();
    DayFollows(ScanMonth(Short, t).value.rest);
    ShortOrLongAgrees(ShortMonths, MonthSuffixes, t);
  }

  /** `%A, %B` reads what `%a, %b` reads, when a day follows. */
  lemma HeadLong(s: string)
    requires ScanHead(Short, s).Some?
    requires ScanDay(Trim(ScanHead(Short, s).value.rest)).Some?
    ensures ScanHead(Long, s) == ScanHead(Short, s)
  {
    var weekday := ScanWeekday(Short, s).value;
    var s1 := ScanChar(',', weekday.rest).value;
    var month := ScanMonth(Short, Trim(s1)).value;
    HeadSteps(Short, s, weekday.value, weekday.rest, s1, month.value, month.rest);
    WeekdayLong(s);
    MonthLong(Trim(s1));
    HeadSteps(Long, s, weekday.value, weekday.rest, s1, month.value, month.rest);
  }

  /** Every text the short format reads into fields, the long format reads into the same fields. */
  lemma ScanFieldsLong(s: string)
    requires ScanFields(Short, s).Some?
    ensures ScanFields(Long, s) == ScanFields(Short, s)
  {
    var head := ScanHead(Short, s).value;
    assert ScanDay(Trim(head.rest)).Some?;
    HeadLong(s);
  }

  /** So trying the long format after the short one can only add dates, never change one. */
  lemma LongAcceptsShort(s: string)
    requires Parse(Short, s).Some?
    ensures Parse(Long, s) == Parse(Short, s)
  {
    ScanFieldsLong(s);
  }

  // ---------------------------------------------------------------------
  // A formatted date is one line
  // ---------------------------------------------------------------------

  lemma NameTablesOneLine()
    ensures forall i :: 0 <= i < 7 ==> '\n' !in ShortWeekdays[i] && '\n' !in WeekdaySuffixes[i]
    ensures forall i :: 0 <= i < 12 ==> '\n' !in ShortMonths[i] && '\n' !in MonthSuffixes[i]
  {
  }

  /** No line feed appears in a formatted date, so a title pattern's `(.*)$` can capture all of it. */
  lemma FormatOneLine(format: DateFormat, d: Date)
    requires ValidDate(d) && 0 <= d.year <= 9999
    ensures '\n' !in Format(format, d)
  {
    NameTablesOneLine();
    var W := WeekdayName(format, Weekday(d));
    var M := MonthName(format, d.month - 1);
    var P := PaddedDay(d.day);
    var Y := FourDigits(d.year);
    assert '\n' !in W && '\n' !in M;
    assert '\n' !in P && '\n' !in Y;
    assert Format(format, d) == W + (", " + (M + (" " + (P + (", " + Y)))));
  }
}
