/**
 The calendar arithmetic of crates/obby-proto/src/servertime.rs:88-123, against the plain rules of the Gregorian
 calendar: month lengths, leap years by 4, 100 and 400, and walking one day at a time from 1970-01-01.
 */
module Calendar {

  datatype Date = Date(year: int, month: int, day: int)

  // ---- the plain rules ----

  predicate IsLeap(year: int) {
    year % 4 == 0 && (year % 100 != 0 || year % 400 == 0)
  }

  function DaysInMonth(year: int, month: int): int {
    if month == 2 then (if IsLeap(year) then 29 else 28)
    else if month == 4 || month == 6 || month == 9 || month == 11 then 30
    else 31
  }

  predicate Valid(d: Date) {
    1 <= d.month <= 12 && 1 <= d.day <= DaysInMonth(d.year, d.month)
  }

  function NextDay(d: Date): Date {
    if d.day < DaysInMonth(d.year, d.month) then Date(d.year, d.month, d.day + 1)
    else if d.month < 12 then Date(d.year, d.month + 1, 1)
    else Date(d.year + 1, 1, 1)
  }

  /** The date so many days after the epoch, one day at a time. */
  function DateAfter(days: nat): Date {
    if days == 0 then Date(1970, 1, 1) else NextDay(DateAfter(days - 1))
  }

  predicate Before(a: Date, b: Date) {
    a.year < b.year || (a.year == b.year && (a.month < b.month || (a.month == b.month && a.day < b.day)))
  }

  // ---- the two algorithms ----

  /** Division that rounds toward zero. */
  function TruncatedDiv(a: int, b: int): int
    requires b > 0
  {
    if a >= 0 then a / b else -((-a) / b)
  }

  function DaysFromCivil(d: Date): int {
    var year := if d.month <= 2 then d.year - 1 else d.year;
    var era := TruncatedDiv(if year >= 0 then year else year - 399, 400);
    var yearOfEra := year - era * 400;
    var shiftedMonth := if d.month > 2 then d.month - 3 else d.month + 9;
    var dayOfYear := TruncatedDiv(153 * shiftedMonth + 2, 5) + d.day - 1;
    var dayOfEra := yearOfEra * 365 + TruncatedDiv(yearOfEra, 4) - TruncatedDiv(yearOfEra, 100) + dayOfYear;
    era * 146_097 + dayOfEra - 719_468
  }

  function YearOfEra(dayOfEra: nat): int {
    (dayOfEra - dayOfEra / 1460 + dayOfEra / 36_524 - dayOfEra / 146_096) / 365
  }

  function CivilFromDays(days: nat): Date {
    var eraDays := days + 719_468;
    var era := eraDays / 146_097;
    var dayOfEra := eraDays % 146_097;
    var yearOfEra := YearOfEra(dayOfEra);
    var dayOfYear := dayOfEra - (365 * yearOfEra + yearOfEra / 4 - yearOfEra / 100);
    var shiftedMonth := (5 * dayOfYear + 2) / 153;
    var day := dayOfYear - (153 * shiftedMonth + 2) / 5 + 1;
    var month := if shiftedMonth < 10 then shiftedMonth + 3 else shiftedMonth - 9;
    Date(yearOfEra + era * 400 + (if month <= 2 then 1 else 0), month, day)
  }

  // ---- years that begin in March ----

  /** Days before the first of March of a year, counted from a fixed day. */
  function YearStart(year: int): int {
    365 * year + year / 4 - year / 100 + year / 400
  }

  lemma SameRemainders(q: int, r: int)
    requires 0 <= r <= 400
    ensures IsLeap(400 * q + r) == IsLeap(r)
    ensures YearStart(400 * q + r) == 146_097 * q + YearStart(r)
  {
    var year := 400 * q + r;
    assert year / 4 == 100 * q + r / 4 && year / 100 == 4 * q + r / 100 && year / 400 == q + r / 400;
    assert year % 4 == r % 4 && year % 100 == r % 100 && year % 400 == r % 400;
  }

  lemma SmallYearLength(r: int)
    requires 0 <= r < 400
    ensures YearStart(r + 1) - YearStart(r) == if IsLeap(r + 1) then 366 else 365
  {
    SmallYearParts(r, r / 100, r % 100 / 4, r % 4);
  }

  lemma SmallYearParts(r: int, c: int, q: int, s: int)
    requires r == 100 * c + 4 * q + s && 0 <= c < 4 && 0 <= q < 25 && 0 <= s < 4
    ensures YearStart(r + 1) - YearStart(r) == if IsLeap(r + 1) then 366 else 365
  {
    assert r / 4 == 25 * c + q && r / 100 == c && r / 400 == 0;
    if s < 3 {
      assert (r + 1) / 4 == 25 * c + q && (r + 1) / 100 == c && (r + 1) % 4 == s + 1;
    } else if q < 24 {
      assert (r + 1) / 4 == 25 * c + q + 1 && (r + 1) / 100 == c && (r + 1) % 100 == 4 * (q + 1);
    } else {
      assert r + 1 == 100 * (c + 1) && (r + 1) / 4 == 25 * c + 25;
    }
  }

  lemma YearLengthInEra(year: int, q: int, r: int)
    requires year == 400 * q + r && 0 <= r < 400
    ensures YearStart(year + 1) - YearStart(year) == if IsLeap(year + 1) then 366 else 365
  {
    assert year + 1 == 400 * q + (r + 1);
    SameRemainders(q, r);
    SameRemainders(q, r + 1);
    SmallYearLength(r);
  }

  /** A year counted from March ends with the February of the next, so it is long when the next one is leap. */
  lemma YearLength(year: int)
    ensures YearStart(year + 1) - YearStart(year) == if IsLeap(year + 1) then 366 else 365
  {
    YearLengthInEra(year, year / 400, year % 400);
  }

  lemma {:induction false} YearsGrow(a: int, b: int)
    requires a < b
    ensures YearStart(a + 1) <= YearStart(b)
    decreases b - a
  {
    if a + 1 < b {
      YearsGrow(a, b - 1);
      YearLength(b - 1);
    }
  }

  function ShiftedYear(d: Date): int {
    if d.month <= 2 then d.year - 1 else d.year
  }

  function ShiftedMonth(d: Date): int {
    if d.month > 2 then d.month - 3 else d.month + 9
  }

  function MonthStart(shiftedMonth: int): int {
    (153 * shiftedMonth + 2) / 5
  }

  /** The day within a year that begins in March. */
  function DayOfYear(d: Date): int {
    MonthStart(ShiftedMonth(d)) + d.day - 1
  }

  lemma DaysByYear(d: Date)
    requires 1 <= d.month <= 12
    ensures DaysFromCivil(d) == YearStart(ShiftedYear(d)) + DayOfYear(d) - 719_468
  {
    var y := ShiftedYear(d);
    var q, r := y / 400, y % 400;
    assert y == 400 * q + r;
    assert TruncatedDiv(if y >= 0 then y else y - 399, 400) == q;
    assert y / 4 == 100 * q + r / 4 && y / 100 == 4 * q + r / 100;
  }

  /** Every valid date falls inside its March year, and months tile that year in order. */
  lemma DayInYear(d: Date)
    requires Valid(d)
    ensures 0 <= DayOfYear(d) < YearStart(ShiftedYear(d) + 1) - YearStart(ShiftedYear(d))
    ensures ShiftedMonth(d) < 11 ==> DayOfYear(d) < MonthStart(ShiftedMonth(d) + 1)
  {
    YearLength(ShiftedYear(d));
  }

  // ---- the next day, order, and both inverses ----

  /** The count of the next calendar day is one more, for every valid date of every year, negative ones too. */
  lemma NextDayIsOneMore(d: Date)
    requires Valid(d)
    ensures Valid(NextDay(d)) && DaysFromCivil(NextDay(d)) == DaysFromCivil(d) + 1
  {
    if d.month == 2 && d.day == DaysInMonth(d.year, 2) {
      MarchFollowsFebruary(d);
    } else {
      DaysByYear(d);
      DaysByYear(NextDay(d));
      NextDayInYear(d);
    }
  }

  lemma MarchFollowsFebruary(d: Date)
    requires Valid(d) && d.month == 2 && d.day == DaysInMonth(d.year, 2)
    ensures NextDay(d) == Date(d.year, 3, 1) && DaysFromCivil(NextDay(d)) == DaysFromCivil(d) + 1
  {
    DaysByYear(d);
    DaysByYear(Date(d.year, 3, 1));
    YearLength(d.year - 1);
  }

  lemma NextDayInYear(d: Date)
    requires Valid(d) && !(d.month == 2 && d.day == DaysInMonth(d.year, 2))
    ensures ShiftedYear(NextDay(d)) == ShiftedYear(d) && DayOfYear(NextDay(d)) == DayOfYear(d) + 1
  {
  }

  lemma LaterInYear(a: Date, b: Date)
    requires Valid(a) && Valid(b) && Before(a, b) && ShiftedYear(a) >= ShiftedYear(b)
    ensures ShiftedYear(a) == ShiftedYear(b) && DayOfYear(a) < DayOfYear(b)
  {
    DayInYear(a);
  }

  /** Counting keeps the order of dates, so no two valid dates share a count. */
  lemma LaterDateCountsMore(a: Date, b: Date)
    requires Valid(a) && Valid(b) && Before(a, b)
    ensures DaysFromCivil(a) < DaysFromCivil(b)
  {
    DaysByYear(a);
    DaysByYear(b);
    if ShiftedYear(a) < ShiftedYear(b) {
      DayInYear(a);
      DayInYear(b);
      YearsGrow(ShiftedYear(a), ShiftedYear(b));
    } else {
      LaterInYear(a, b);
    }
  }

  /** A day of a 400-year era taken apart: centuries, four-year cycles, years and days. */
  predicate TakenApart(day: int, c: int, q: int, s: int, d: int) {
    && day == 36_524 * c + 1461 * q + 365 * s + d
    && 0 <= c <= 3 && 0 <= q <= 24 && 0 <= s <= 3 && 0 <= d <= 365
    && (d == 365 ==> s == 3 && (q < 24 || c == 3))
  }

  lemma TakeApart(day: nat) returns (c: int, q: int, s: int, d: int)
    requires day < 146_097
    ensures TakenApart(day, c, q, s, d)
  {
    c := if day / 36_524 > 3 then 3 else day / 36_524;
    var inCentury := day - 36_524 * c;
    q := inCentury / 1461;
    var inCycle := inCentury - 1461 * q;
    s := if inCycle / 365 > 3 then 3 else inCycle / 365;
    d := inCycle - 365 * s;
  }

  lemma YearOfEraIsRight(day: nat, c: int, q: int, s: int, d: int)
    requires TakenApart(day, c, q, s, d)
    ensures YearOfEra(day) == 100 * c + 4 * q + s
  {
    var extra := if 24 * c + q + 365 * s + d >= 1460 then 1 else 0;
    assert day / 1460 == 25 * c + q + extra;
    assert day / 36_524 - day / 146_096 == c;
    assert day - day / 1460 + day / 36_524 - day / 146_096 == 365 * (100 * c + 4 * q + s) + (d - extra);
  }

  /** The day of the era, split into a year of the era and a day of that year. */
  lemma SplitEra(day: nat) returns (y: int, d: int)
    requires day < 146_097
    ensures 0 <= y < 400 && y == YearOfEra(day) && day == YearStart(y) + d
    ensures 0 <= d < if IsLeap(y + 1) then 366 else 365
  {
    var c, q, s;
    c, q, s, d := TakeApart(day);
    YearOfEraIsRight(day, c, q, s, d);
    y := 100 * c + 4 * q + s;
    LeapAfter(c, q, s);
    assert y / 4 == 25 * c + q && y / 100 == c && y / 400 == 0;
  }

  /** The date at a day of a March year. */
  function DateInYear(year: int, d: int): Date {
    var m := (5 * d + 2) / 153;
    var month := if m < 10 then m + 3 else m - 9;
    Date(year + (if month <= 2 then 1 else 0), month, d - MonthStart(m) + 1)
  }

  lemma DateInYearCounts(year: int, d: int)
    requires 0 <= d < if IsLeap(year + 1) then 366 else 365
    ensures Valid(DateInYear(year, d)) && DaysFromCivil(DateInYear(year, d)) == YearStart(year) + d - 719_468
  {
    MonthOfDay(d, IsLeap(year + 1));
    DaysByYear(DateInYear(year, d));
  }

  lemma CivilByYear(days: nat, era: int, y: int, d: int)
    requires era == (days + 719_468) / 146_097 && 0 <= y < 400
    requires y == YearOfEra((days + 719_468) % 146_097)
    requires (days + 719_468) % 146_097 == 365 * y + y / 4 - y / 100 + d
    ensures CivilFromDays(days) == DateInYear(400 * era + y, d)
  {
  }

  /** The date computed from a count is valid and has that count. */
  lemma CountOfComputedDate(days: nat)
    ensures Valid(CivilFromDays(days)) && DaysFromCivil(CivilFromDays(days)) == days
  {
    var era, dayOfEra := (days + 719_468) / 146_097, (days + 719_468) % 146_097;
    var y, d := SplitEra(dayOfEra);
    assert y / 400 == 0;
    CivilByYear(days, era, y, d);
    DateOfSplit(days, era, y, d);
  }

  lemma DateOfSplit(days: nat, era: int, y: int, d: int)
    requires 0 <= y < 400 && days + 719_468 == 146_097 * era + YearStart(y) + d
    requires 0 <= d < if IsLeap(y + 1) then 366 else 365
    ensures var date := DateInYear(400 * era + y, d); Valid(date) && DaysFromCivil(date) == days
  {
    SameRemainders(era, y);
    SameRemainders(era, y + 1);
    assert 400 * era + (y + 1) == 400 * era + y + 1;
    DateInYearCounts(400 * era + y, d);
  }

  lemma LeapAfter(c: int, q: int, s: int)
    requires 0 <= c <= 3 && 0 <= q <= 24 && 0 <= s <= 3
    ensures IsLeap(100 * c + 4 * q + s + 1) <==> s == 3 && (q < 24 || c == 3)
  {
  }

  /** The month found for a day of a March year contains that day. */
  lemma MonthOfDay(d: int, long: bool)
    requires 0 <= d < if long then 366 else 365
    ensures var m := (5 * d + 2) / 153;
            && 0 <= m <= 11 && MonthStart(m) <= d
            && (m < 11 ==> d < MonthStart(m + 1))
            && (m == 11 ==> d - MonthStart(m) < if long then 29 else 28)
  {
  }

  /** The date computed from the count of a valid date, from 1970 on, is that date. */
  lemma ComputedDateOfCount(d: Date)
    requires Valid(d) && DaysFromCivil(d) >= 0
    ensures CivilFromDays(DaysFromCivil(d)) == d
  {
    var other := CivilFromDays(DaysFromCivil(d));
    CountOfComputedDate(DaysFromCivil(d));
    if Before(d, other) {
      LaterDateCountsMore(d, other);
    } else if Before(other, d) {
      LaterDateCountsMore(other, d);
    }
  }

  lemma TheEpoch()
    ensures DaysFromCivil(Date(1970, 1, 1)) == 0
  {
  }

  /** From 1970 on means exactly what it says. */
  lemma FromTheEpochOn(d: Date)
    requires Valid(d)
    ensures DaysFromCivil(d) >= 0 <==> d.year >= 1970
  {
    var epoch := Date(1970, 1, 1);
    TheEpoch();
    if d.year < 1970 {
      LaterDateCountsMore(d, epoch);
    } else if d != epoch {
      LaterDateCountsMore(epoch, d);
    }
  }

  lemma {:induction false} WalkCounts(days: nat)
    ensures Valid(DateAfter(days)) && DaysFromCivil(DateAfter(days)) == days
  {
    if days > 0 {
      WalkCounts(days - 1);
      NextDayIsOneMore(DateAfter(days - 1));
    }
  }

  /** Both algorithms agree with walking the calendar a day at a time, for every number of days. */
  lemma AgreesWithTheWalk(days: nat)
    ensures CivilFromDays(days) == DateAfter(days) && DaysFromCivil(DateAfter(days)) == days
  {
    WalkCounts(days);
    ComputedDateOfCount(DateAfter(days));
  }
}
