/** The `server-time` text (crates/obby-proto/src/servertime.rs:17-93): reading and writing an instant. */
module ServerTime {
  import opened Wrappers
  import opened Integers
  import opened Numbers
  import opened Text
  import opened Calendar

  function ParsedDate(text: string): Option<Date> {
    var parts := Split(text, '-');
    if |parts| != 3 then None
    else DateOf(ParseI64(parts[0]), ParseUnsigned(parts[1], U32_MAX), ParseUnsigned(parts[2], U32_MAX))
  }

  function DateOf(year: Option<int>, month: Option<nat>, day: Option<nat>): Option<Date> {
    match (year, month, day)
    case (Some(y), Some(m), Some(d)) =>
      if 1 <= y <= 9999 && 1 <= m <= 12 && 1 <= d <= 31 then Some(Date(y, m, d)) else None
    case _ => None
  }

  /** Seconds into the day. A leap second is let through. */
  function ParsedClock(text: string): (r: Option<nat>)
    ensures r.Some? ==> r.value <= 86_400
  {
    var parts := Split(text, ':');
    if |parts| != 3 then None
    else SecondOf(ParseUnsigned(parts[0], U64_MAX), ParseUnsigned(parts[1], U64_MAX), ParseUnsigned(parts[2], U64_MAX))
  }

  function SecondOf(hour: Option<nat>, minute: Option<nat>, second: Option<nat>): (r: Option<nat>)
    ensures r.Some? ==> r.value <= 86_400
  {
    match (hour, minute, second)
    case (Some(h), Some(m), Some(s)) =>
      if h <= 23 && m <= 59 && s <= 60 then Some(h * 3600 + m * 60 + s) else None
    case _ => None
  }

  /** As many digits as were sent, cut or scaled to three. */
  function MillisFromFraction(text: string): (r: Option<nat>) {
    if !AllDigits(text) then None
    else
      var digits := if |text| >= 3 then text[..3] else text;
      match ParseUnsigned(digits, U16_MAX)
      case None => None
      case Some(value) => Some(if |digits| == 1 then value * 100 else if |digits| == 2 then value * 10 else value)
  }

  function SplitSuffix(text: string, c: char): Option<string> {
    if text != "" && text[|text| - 1] == c then Some(text[..|text| - 1]) else None
  }

  /** The instant, unless it lies before the epoch. */
  function Instant(date: Date, second: nat, millis: nat): Option<nat> {
    var total := (DaysFromCivil(date) * 86_400 + second) * 1000 + millis;
    if total < 0 then None else Some(total)
  }

  function Parsed(text: string): Option<nat> {
    match SplitOnce(text, 'T')
    case None => None
    case Some((date, rest)) =>
      match SplitSuffix(rest, 'Z')
      case None => None
      case Some(time) =>
        var (clock, fraction) := match SplitOnce(time, '.') case Some(parts) => parts case None => (time, "0");
        match (ParsedDate(date), ParsedClock(clock), MillisFromFraction(fraction))
        case (Some(d), Some(second), Some(millis)) => Instant(d, second, millis)
        case _ => None
  }

  function Three(a: string, b: string, c: string, sep: char): string {
    a + [sep] + (b + [sep] + c)
  }

  function DateText(d: Date): string
    requires d.year >= 0 && d.month >= 0 && d.day >= 0
  {
    Three(PaddedDecimal(d.year, 4), PaddedDecimal(d.month, 2), PaddedDecimal(d.day, 2), '-')
  }

  function ClockText(second: nat): string {
    Three(PaddedDecimal(second / 3600, 2), PaddedDecimal((second / 60) % 60, 2), PaddedDecimal(second % 60, 2), ':')
  }

  function InstantText(d: Date, second: nat, millis: nat): string
    requires d.year >= 0 && d.month >= 0 && d.day >= 0
  {
    DateText(d) + "T" + (ClockText(second) + "." + PaddedDecimal(millis, 3) + "Z")
  }

  function Formatted(ms: nat): string {
    var seconds := ms / 1000;
    CountOfComputedDate(seconds / 86_400);
    FromTheEpochOn(CivilFromDays(seconds / 86_400));
    InstantText(CivilFromDays(seconds / 86_400), seconds % 86_400, ms % 1000)
  }

  /** Any month and any day up to 31, whether or not the month has it: what the reader lets through. */
  predicate Readable(d: Date) {
    d.year >= 1 && 1 <= d.month <= 12 && 1 <= d.day <= 31
  }

  // ---- reading back ----

  lemma ThreeSplit(a: string, b: string, c: string, sep: char)
    requires sep !in a && sep !in b && sep !in c
    ensures Split(Three(a, b, c, sep), sep) == [a, b, c]
  {
    SplitStep(a, sep, b + [sep] + c);
    SplitStep(b, sep, c);
    SplitOnceMiss(c, sep);
  }

  lemma SignedPaddedReadsBack(n: nat, width: nat)
    ensures ParseI64(PaddedDecimal(n, width)) == if n <= I64_MAX then Some(n) else None
  {
    PaddedReadsBack(n, width);
    assert IsDigit(PaddedDecimal(n, width)[0]);
  }

  lemma DateReadsBack(d: Date)
    requires Readable(d)
    ensures ParsedDate(DateText(d)) == if d.year <= 9999 then Some(d) else None
  {
    ThreeSplit(PaddedDecimal(d.year, 4), PaddedDecimal(d.month, 2), PaddedDecimal(d.day, 2), '-');
    SignedPaddedReadsBack(d.year, 4);
    PaddedUnsignedReadsBack(d.month, 2, U32_MAX);
    PaddedUnsignedReadsBack(d.day, 2, U32_MAX);
  }

  lemma ClockOfParts(a: string, b: string, c: string)
    requires ':' !in a && ':' !in b && ':' !in c
    ensures ParsedClock(Three(a, b, c, ':')) ==
            SecondOf(ParseUnsigned(a, U64_MAX), ParseUnsigned(b, U64_MAX), ParseUnsigned(c, U64_MAX))
  {
    ThreeSplit(a, b, c, ':');
  }

  lemma ClockPartsReadBack(a: string, b: string, c: string, h: nat, m: nat, s: nat)
    requires ':' !in a && ':' !in b && ':' !in c && h <= 23 && m <= 59 && s <= 60
    requires ParseUnsigned(a, U64_MAX) == Some(h)
    requires ParseUnsigned(b, U64_MAX) == Some(m) && ParseUnsigned(c, U64_MAX) == Some(s)
    ensures ParsedClock(Three(a, b, c, ':')) == Some(h * 3600 + m * 60 + s)
  {
    ClockOfParts(a, b, c);
  }

  lemma TwoDigitsReadBack(n: nat)
    requires n <= 60
    ensures ParseUnsigned(PaddedDecimal(n, 2), U64_MAX) == Some(n)
  {
    PaddedUnsignedReadsBack(n, 2, U64_MAX);
  }

  lemma SecondSplits(second: nat)
    requires second < 86_400
    ensures second / 3600 <= 23 && (second / 60) % 60 <= 59 && second % 60 <= 59
    ensures second == second / 3600 * 3600 + (second / 60) % 60 * 60 + second % 60
  {
    var minutes := second / 60;
    assert second == 60 * minutes + second % 60 && minutes == 60 * (minutes / 60) + minutes % 60;
    assert second / 3600 == minutes / 60;
  }

  lemma ClockReadsBack(second: nat)
    requires second < 86_400
    ensures ParsedClock(ClockText(second)) == Some(second)
  {
    SecondSplits(second);
    PaddedClockReadsBack(second / 3600, (second / 60) % 60, second % 60);
  }

  lemma PaddedClockReadsBack(h: nat, m: nat, s: nat)
    requires h <= 23 && m <= 59 && s <= 59
    ensures ParsedClock(Three(PaddedDecimal(h, 2), PaddedDecimal(m, 2), PaddedDecimal(s, 2), ':'))
         == Some(h * 3600 + m * 60 + s)
  {
    TwoDigitsReadBack(h);
    TwoDigitsReadBack(m);
    TwoDigitsReadBack(s);
    ClockPartsReadBack(PaddedDecimal(h, 2), PaddedDecimal(m, 2), PaddedDecimal(s, 2), h, m, s);
  }

  lemma FractionReadsBack(millis: nat)
    requires millis < 1000
    ensures MillisFromFraction(PaddedDecimal(millis, 3)) == Some(millis)
  {
    assert Pow10(3) == 10 * (10 * (10 * Pow10(0)));
    DecimalWidth(millis, 3, 1000);
    var text := PaddedDecimal(millis, 3);
    assert |text| == 3 && text[..3] == text;
    PaddedUnsignedReadsBack(millis, 3, U16_MAX);
  }

  lemma LineFallsApart(date: string, clock: string, fraction: string)
    requires 'T' !in date && '.' !in clock
    ensures var text := date + "T" + (clock + "." + fraction + "Z");
            && SplitOnce(text, 'T') == Some((date, clock + "." + fraction + "Z"))
            && SplitSuffix(clock + "." + fraction + "Z", 'Z') == Some(clock + "." + fraction)
            && SplitOnce(clock + "." + fraction, '.') == Some((clock, fraction))
  {
    var rest := clock + "." + fraction;
    SplitOnceHit(date, 'T', rest + "Z");
    assert (rest + "Z")[..|rest|] == rest;
    SplitOnceHit(clock, '.', fraction);
  }

  lemma PartsHoldNoMarks(d: Date, second: nat)
    requires d.year >= 0 && d.month >= 0 && d.day >= 0
    ensures 'T' !in DateText(d) && '.' !in ClockText(second)
  {
  }

  lemma InstantOfSplit(d: Date, days: nat, second: nat, millis: nat, ms: nat)
    requires DaysFromCivil(d) == days && ms == (days * 86_400 + second) * 1000 + millis
    ensures Instant(d, second, millis) == Some(ms)
  {
  }

  /** The last millisecond of the year 9999. */
  const LAST_INSTANT: nat := 253_402_300_799_999

  lemma DaysAndMillis(ms: nat)
    ensures ms == ((ms / 1000 / 86_400) * 86_400 + ms / 1000 % 86_400) * 1000 + ms % 1000
    ensures ms / 1000 / 86_400 <= LAST_INSTANT / 86_400_000 <==> ms <= LAST_INSTANT
  {
  }

  lemma LastDay()
    ensures DaysFromCivil(Date(9999, 12, 31)) == LAST_INSTANT / 86_400_000
  {
  }

  lemma YearsPast9999(days: nat)
    ensures CivilFromDays(days).year <= 9999 <==> days <= LAST_INSTANT / 86_400_000
  {
    CountOfComputedDate(days);
    LastDay();
    DateOrder(CivilFromDays(days), Date(9999, 12, 31));
  }

  lemma DateOrder(d: Date, last: Date)
    requires Valid(d) && last == Date(9999, 12, 31)
    ensures d.year <= 9999 <==> DaysFromCivil(d) <= DaysFromCivil(last)
  {
    if Before(d, last) {
      LaterDateCountsMore(d, last);
    } else if Before(last, d) {
      LaterDateCountsMore(last, d);
    }
  }

  lemma PartsDecide(date: string, clock: string, fraction: string)
    requires 'T' !in date && '.' !in clock
    ensures Parsed(date + "T" + (clock + "." + fraction + "Z")) ==
            match (ParsedDate(date), ParsedClock(clock), MillisFromFraction(fraction))
            case (Some(d), Some(second), Some(millis)) => Instant(d, second, millis)
            case _ => None
  {
    LineFallsApart(date, clock, fraction);
  }

  lemma FormattedDecides(d: Date, second: nat, millis: nat)
    requires Readable(d) && second < 86_400 && millis < 1000
    ensures Parsed(InstantText(d, second, millis)) ==
            if d.year <= 9999 then Instant(d, second, millis) else None
  {
    PartsHoldNoMarks(d, second);
    PartsDecide(DateText(d), ClockText(second), PaddedDecimal(millis, 3));
    DateReadsBack(d);
    ClockReadsBack(second);
    FractionReadsBack(millis);
  }

  /**
   What `format` writes, `parse` reads back as the same instant: exactly up to the last millisecond of the year
   9999. Later instants are written with a longer year, which is refused.
   */
  lemma FormatReadsBackIff(ms: nat)
    ensures Parsed(Formatted(ms)) == if ms <= LAST_INSTANT then Some(ms) else None
  {
    var days, second := ms / 1000 / 86_400, ms / 1000 % 86_400;
    var d := CivilFromDays(days);
    CountOfComputedDate(days);
    FromTheEpochOn(d);
    FormattedDecides(d, second, ms % 1000);
    YearsPast9999(days);
    DaysAndMillis(ms);
    InstantOfSplit(d, days, second, ms % 1000, ms);
  }

  /** Later instants have later dates: what is written orders the way the instants do, by date and then clock. */
  lemma LaterInstantLaterDate(a: nat, b: nat)
    requires a < b
    ensures CivilFromDays(a) == CivilFromDays(b) || Before(CivilFromDays(a), CivilFromDays(b))
    ensures CivilFromDays(a) != CivilFromDays(b)
  {
    CountOfComputedDate(a);
    CountOfComputedDate(b);
    if Before(CivilFromDays(b), CivilFromDays(a)) {
      LaterDateCountsMore(CivilFromDays(b), CivilFromDays(a));
    }
  }

  /** A day past the end of its month is let through and counts into the next month. */
  lemma LateDayRollsOver(year: int, month: int, extra: nat)
    requires 1 <= month <= 12 && DaysInMonth(year, month) + extra <= 31 && extra > 0
    ensures DaysFromCivil(Date(year, month, DaysInMonth(year, month) + extra))
         == DaysFromCivil(Date(year, month + 1, extra))
    ensures Valid(Date(year, month + 1, extra))
  {
    var last, first := Date(year, month, DaysInMonth(year, month)), Date(year, month + 1, 1);
    NextDayIsOneMore(last);
    DaysAddUp(last, extra);
    DaysAddUp(first, extra - 1);
  }

  lemma DaysAddUp(d: Date, extra: int)
    requires 1 <= d.month <= 12
    ensures DaysFromCivil(d.(day := d.day + extra)) == DaysFromCivil(d) + extra
  {
    DaysByYear(d);
    DaysByYear(d.(day := d.day + extra));
  }

  /** The count of a day from 1970 on leads back to it if and only if its month has that day. */
  lemma CountLeadsBackIff(d: Date)
    requires Readable(d) && d.year >= 1970
    ensures DaysFromCivil(d) >= 0
    ensures CivilFromDays(DaysFromCivil(d)) == d <==> d.day <= DaysInMonth(d.year, d.month)
  {
    var first := d.(day := 1);
    FromTheEpochOn(first);
    DaysAddUp(first, d.day - 1);
    if Valid(d) {
      ComputedDateOfCount(d);
    } else {
      CountOfComputedDate(DaysFromCivil(d));
    }
  }

  lemma SplitInstant(days: nat, second: nat, millis: nat, ms: nat)
    requires second < 86_400 && millis < 1000 && ms == (days * 86_400 + second) * 1000 + millis
    ensures ms / 1000 / 86_400 == days && ms / 1000 % 86_400 == second && ms % 1000 == millis
  {
    assert ms / 1000 == days * 86_400 + second;
  }

  lemma DateTextsDiffer(c: Date, d: Date, second: nat, millis: nat)
    requires Readable(c) && Readable(d) && d.year <= 9999
    requires InstantText(c, second, millis) == InstantText(d, second, millis)
    ensures c == d
  {
    PartsHoldNoMarks(c, second);
    PartsHoldNoMarks(d, second);
    LineFallsApart(DateText(c), ClockText(second), PaddedDecimal(millis, 3));
    LineFallsApart(DateText(d), ClockText(second), PaddedDecimal(millis, 3));
    DateReadsBack(c);
    DateReadsBack(d);
  }

  /**
   A text with any such day is read, and writing what was read gives the text back if and only if its month has that
   day: a day past the end of the month comes back as one of the next.
   */
  lemma ReadTextIsWrittenBackIff(d: Date, second: nat, millis: nat)
    requires Readable(d) && 1970 <= d.year <= 9999 && second < 86_400 && millis < 1000
    ensures var text := InstantText(d, second, millis);
            && Parsed(text).Some?
            && (Formatted(Parsed(text).value) == text <==> d.day <= DaysInMonth(d.year, d.month))
  {
    CountLeadsBackIff(d);
    FormattedDecides(d, second, millis);
    var days := DaysFromCivil(d);
    var ms := (days * 86_400 + second) * 1000 + millis;
    InstantOfSplit(d, days, second, millis, ms);
    SplitInstant(days, second, millis, ms);
    var c := CivilFromDays(days);
    CountOfComputedDate(days);
    FromTheEpochOn(c);
    assert Formatted(ms) == InstantText(c, second, millis);
    if InstantText(c, second, millis) == InstantText(d, second, millis) {
      DateTextsDiffer(c, d, second, millis);
    }
  }

  lemma {:induction false} FewDigits(s: string, k: nat)
    requires AllDigits(s) && |s| <= k
    ensures ValueOf(s) < Pow10(k)
    decreases k
  {
    if s != "" {
      FewDigits(s[..|s| - 1], k - 1);
    }
  }

  // ---- every text of the shape ----

  lemma {:induction false} ValueOfParts(a: string, b: string)
    requires AllDigits(a) && AllDigits(b)
    ensures AllDigits(a + b) && ValueOf(a + b) == ValueOf(a) * Pow10(|b|) + ValueOf(b)
    decreases |b|
  {
    if b == "" {
      assert a + b == a;
    } else {
      var front, x, p := b[..|b| - 1], ValueOf(a), Pow10(|b| - 1);
      ValueOfParts(a, front);
      LastDigitOf(a, b);
      assert ValueOf(a + b) == 10 * (x * p + ValueOf(front)) + DigitValue(b[|b| - 1]);
      TenTimes(x, p);
    }
  }

  lemma LastDigitOf(a: string, b: string)
    requires b != "" && AllDigits(a) && AllDigits(b)
    ensures AllDigits(a + b) && AllDigits(a + b[..|b| - 1])
    ensures ValueOf(a + b) == 10 * ValueOf(a + b[..|b| - 1]) + DigitValue(b[|b| - 1])
  {
    assert (a + b)[..|a + b| - 1] == a + b[..|b| - 1] && (a + b)[|a + b| - 1] == b[|b| - 1];
  }

  lemma TenTimes(x: nat, p: nat)
    ensures 10 * (x * p) == x * (10 * p)
  {
  }

  lemma Quotient(a: nat, p: nat, b: nat)
    requires b < p
    ensures (a * p + b) * 1000 / (1000 * p) == a
  {
    var n, d := (a * p + b) * 1000, 1000 * p;
    assert n == a * d + 1000 * b && 1000 * b < d;
    DivisionIsUnique(n, d, a, 1000 * b);
  }

  lemma DivisionIsUnique(n: nat, d: nat, q: nat, r: nat)
    requires d > 0 && n == q * d + r && r < d
    ensures n / d == q
  {
    var x := n / d;
    if x < q {
      AtLeastOnce(q - x, d);
    } else if x > q {
      AtLeastOnce(x - q, d);
    }
  }

  lemma AtLeastOnce(k: nat, d: nat)
    requires k >= 1
    ensures k * d >= d
  {
  }

  /** A fraction of a second in whole milliseconds, however many digits it has. */
  lemma MillisOfFraction(f: string)
    ensures MillisFromFraction(f) ==
            if f != "" && AllDigits(f) then Some(ValueOf(f) * 1000 / Pow10(|f|)) else None
  {
    if f != "" && AllDigits(f) {
      assert IsDigit(f[0]);
      if |f| >= 3 {
        LongFraction(f);
        FewDigits(f[..3], 3);
        assert IsDigit(f[..3][0]) && Pow10(3) == 10 * (10 * (10 * Pow10(0)));
      } else {
        FewDigits(f, |f|);
        assert Pow10(2) == 10 * (10 * Pow10(0)) && Pow10(1) == 10 * Pow10(0);
        ShortFraction(ValueOf(f), |f|);
      }
    }
  }

  lemma ShortFraction(value: nat, length: nat)
    requires length == 1 || length == 2
    ensures value * 1000 / Pow10(length) == if length == 1 then value * 100 else value * 10
  {
    assert Pow10(2) == 10 * (10 * Pow10(0)) && Pow10(1) == 10 * Pow10(0);
  }

  lemma {:induction false} PowersMultiply(a: nat, b: nat)
    ensures Pow10(a + b) == Pow10(a) * Pow10(b)
  {
    if a > 0 {
      PowersMultiply(a - 1, b);
      var x, y := Pow10(a - 1), Pow10(b);
      assert 10 * (x * y) == (10 * x) * y;
    }
  }

  lemma LongFraction(f: string)
    requires |f| >= 3 && AllDigits(f)
    ensures ValueOf(f) * 1000 / Pow10(|f|) == ValueOf(f[..3])
  {
    var more := f[3..];
    assert f == f[..3] + more && Pow10(3) == 10 * (10 * (10 * Pow10(0)));
    ValueOfParts(f[..3], more);
    FewDigits(more, |more|);
    PowersMultiply(3, |more|);
    Quotient(ValueOf(f[..3]), Pow10(|more|), ValueOf(more));
  }

  lemma NumeralsHoldNoMarks(s: string, n: nat)
    requires Numeral(s, n)
    ensures AllDigits(s)
    ensures ParseUnsigned(s, U32_MAX) == (if n <= U32_MAX then Some(n) else None)
    ensures ParseUnsigned(s, U64_MAX) == (if n <= U64_MAX then Some(n) else None)
    ensures ParseI64(s) == if n <= I64_MAX then Some(n) else None
  {
    NumeralIff(s, n);
    assert s[0] in s;
  }

  lemma DateOfParts(y: string, m: string, d: string)
    requires AllDigits(y) && AllDigits(m) && AllDigits(d)
    ensures 'T' !in Three(y, m, d, '-')
    ensures ParsedDate(Three(y, m, d, '-')) == DateOf(ParseI64(y), ParseUnsigned(m, U32_MAX), ParseUnsigned(d, U32_MAX))
  {
    ThreeSplit(y, m, d, '-');
  }

  lemma DateOfNumerals(y: string, m: string, d: string, year: nat, month: nat, day: nat)
    requires Numeral(y, year) && Numeral(m, month) && Numeral(d, day)
    ensures 'T' !in Three(y, m, d, '-')
    ensures ParsedDate(Three(y, m, d, '-')) ==
            if 1 <= year <= 9999 && 1 <= month <= 12 && 1 <= day <= 31 then Some(Date(year, month, day)) else None
  {
    NumeralsHoldNoMarks(y, year);
    NumeralsHoldNoMarks(m, month);
    NumeralsHoldNoMarks(d, day);
    DateOfParts(y, m, d);
  }

  lemma ClockOfDigits(h: string, m: string, s: string)
    requires AllDigits(h) && AllDigits(m) && AllDigits(s)
    ensures '.' !in Three(h, m, s, ':')
    ensures ParsedClock(Three(h, m, s, ':')) ==
            SecondOf(ParseUnsigned(h, U64_MAX), ParseUnsigned(m, U64_MAX), ParseUnsigned(s, U64_MAX))
  {
    ClockOfParts(h, m, s);
  }

  lemma ClockOfNumerals(h: string, m: string, s: string, hour: nat, minute: nat, second: nat)
    requires Numeral(h, hour) && Numeral(m, minute) && Numeral(s, second)
    ensures '.' !in Three(h, m, s, ':')
    ensures ParsedClock(Three(h, m, s, ':')) ==
            if hour <= 23 && minute <= 59 && second <= 60 then Some(hour * 3600 + minute * 60 + second) else None
  {
    NumeralsHoldNoMarks(h, hour);
    NumeralsHoldNoMarks(m, minute);
    NumeralsHoldNoMarks(s, second);
    ClockOfDigits(h, m, s);
    SecondOfBounded(hour, minute, second);
  }

  lemma SecondOfBounded(hour: nat, minute: nat, second: nat)
    ensures SecondOf(if hour <= U64_MAX then Some(hour) else None, if minute <= U64_MAX then Some(minute) else None,
                     if second <= U64_MAX then Some(second) else None) ==
            if hour <= 23 && minute <= 59 && second <= 60 then Some(hour * 3600 + minute * 60 + second) else None
  {
  }

  lemma NoFractionIsZero()
    ensures MillisFromFraction("0") == Some(0)
  {
    MillisOfFraction("0");
    ValueOfOneMore("", 0);
    assert "" + [DigitChar(0)] == "0";
  }

  lemma ClockAlone(date: string, clock: string)
    requires 'T' !in date && '.' !in clock
    ensures var text := date + "T" + (clock + "Z");
            && SplitOnce(text, 'T') == Some((date, clock + "Z"))
            && SplitSuffix(clock + "Z", 'Z') == Some(clock)
            && SplitOnce(clock, '.') == None
  {
    SplitOnceHit(date, 'T', clock + "Z");
    assert (clock + "Z")[..|clock|] == clock;
    SplitOnceMiss(clock, '.');
  }

  lemma WithoutFraction(date: string, clock: string)
    requires 'T' !in date && '.' !in clock
    ensures Parsed(date + "T" + (clock + "Z")) ==
            match (ParsedDate(date), ParsedClock(clock))
            case (Some(d), Some(second)) => Instant(d, second, 0)
            case _ => None
  {
    ClockAlone(date, clock);
    NoFractionIsZero();
  }

  /** The instant that six numbers and milliseconds make, when each is in its range and the instant is not before 1970. */
  function InstantOf(year: nat, month: nat, day: nat, hour: nat, minute: nat, second: nat, millis: nat): Option<nat> {
    if !(1 <= year <= 9999 && 1 <= month <= 12 && 1 <= day <= 31 && hour <= 23 && minute <= 59 && second <= 60) then None
    else MillisOf(DaysFromCivil(Date(year, month, day)), hour, minute, second, millis)
  }

  function MillisOf(days: int, hour: nat, minute: nat, second: nat, millis: nat): Option<nat> {
    var total := days * 86_400_000 + hour * 3_600_000 + minute * 60_000 + second * 1000 + millis;
    if total < 0 then None else Some(total)
  }

  lemma PartsMake(date: Option<Date>, clock: Option<nat>, millis: nat,
                  year: nat, month: nat, day: nat, hour: nat, minute: nat, second: nat)
    requires date == if 1 <= year <= 9999 && 1 <= month <= 12 && 1 <= day <= 31 then Some(Date(year, month, day)) else None
    requires clock == if hour <= 23 && minute <= 59 && second <= 60 then Some(hour * 3600 + minute * 60 + second) else None
    ensures InstantOf(year, month, day, hour, minute, second, millis) ==
            match (date, clock)
            case (Some(d), Some(s)) => Instant(d, s, millis)
            case _ => None
  {
  }

  /**
   Every text of the shape without a fraction: numerals with any number of zeros in front. It is read if and only if each
   number is in its range and the instant is not before 1970, and then as the instant they make. A leap second is let through.
   */
  lemma WholeSecondsAreRead(y: string, m: string, d: string, hh: string, mm: string, ss: string,
                            year: nat, month: nat, day: nat, hour: nat, minute: nat, second: nat)
    requires Numeral(y, year) && Numeral(m, month) && Numeral(d, day)
    requires Numeral(hh, hour) && Numeral(mm, minute) && Numeral(ss, second)
    ensures Parsed(Three(y, m, d, '-') + "T" + (Three(hh, mm, ss, ':') + "Z"))
         == InstantOf(year, month, day, hour, minute, second, 0)
  {
    var date, clock := Three(y, m, d, '-'), Three(hh, mm, ss, ':');
    DateOfNumerals(y, m, d, year, month, day);
    ClockOfNumerals(hh, mm, ss, hour, minute, second);
    WithoutFraction(date, clock);
    PartsMake(ParsedDate(date), ParsedClock(clock), 0, year, month, day, hour, minute, second);
  }

  /** And with one: any number of digits, of which the part below a millisecond is cut off. Anything else is refused. */
  lemma FractionsAreRead(y: string, m: string, d: string, hh: string, mm: string, ss: string, fraction: string,
                         year: nat, month: nat, day: nat, hour: nat, minute: nat, second: nat)
    requires Numeral(y, year) && Numeral(m, month) && Numeral(d, day)
    requires Numeral(hh, hour) && Numeral(mm, minute) && Numeral(ss, second)
    ensures Parsed(Three(y, m, d, '-') + "T" + (Three(hh, mm, ss, ':') + "." + fraction + "Z")) ==
            if fraction != "" && AllDigits(fraction)
            then InstantOf(year, month, day, hour, minute, second, ValueOf(fraction) * 1000 / Pow10(|fraction|))
            else None
  {
    var date, clock := Three(y, m, d, '-'), Three(hh, mm, ss, ':');
    DateOfNumerals(y, m, d, year, month, day);
    ClockOfNumerals(hh, mm, ss, hour, minute, second);
    PartsDecide(date, clock, fraction);
    MillisOfFraction(fraction);
    if fraction != "" && AllDigits(fraction) {
      PartsMake(ParsedDate(date), ParsedClock(clock), ValueOf(fraction) * 1000 / Pow10(|fraction|),
                year, month, day, hour, minute, second);
    }
  }

  /** Whatever is read is an instant that fits the type it is returned in. */
  lemma ParsedFits(text: string)
    requires Parsed(text).Some?
    ensures Parsed(text).value <= I64_MAX
  {
    var (date, rest) := SplitOnce(text, 'T').value;
    var time := SplitSuffix(rest, 'Z').value;
    var (clock, fraction) := match SplitOnce(time, '.') case Some(parts) => parts case None => (time, "0");
    MillisAreFew(fraction);
    SumsStayInRange(ParsedDate(date).value, ParsedClock(clock).value, MillisFromFraction(fraction).value);
  }

  lemma MillisAreFew(fraction: string)
    requires MillisFromFraction(fraction).Some?
    ensures MillisFromFraction(fraction).value <= 999
  {
    var digits := if |fraction| >= 3 then fraction[..3] else fraction;
    assert Pow10(3) == 10 * Pow10(2) && Pow10(2) == 10 * Pow10(1) && Pow10(1) == 10 * Pow10(0);
    if |digits| == 1 {
      FewDigits(digits, 1);
    } else if |digits| == 2 {
      FewDigits(digits, 2);
    } else {
      FewDigits(digits, 3);
    }
    assert digits[0] in fraction && IsDigit(digits[0]);
  }

  /** No checked operation in `parse` can overflow: the year is limited before any sum is done. */
  lemma SumsStayInRange(d: Date, second: nat, millis: nat)
    requires 1 <= d.year <= 9999 && 1 <= d.month <= 12 && 1 <= d.day <= 31 && second <= 86_400 && millis <= 999
    ensures I64_MIN <= DaysFromCivil(d) * 86_400 && I64_MIN <= (DaysFromCivil(d) * 86_400 + second) * 1000
    ensures (DaysFromCivil(d) * 86_400 + second) * 1000 + millis <= I64_MAX
  {
    DaysByYear(d);
  }
}
