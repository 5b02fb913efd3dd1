/** The fast fixed-layout date parser of `DateUtils.parseInstant`, the digit
    extraction helpers it uses, and the second-to-millisecond conversions of
    `fromTimestamp`. The accepted layouts are a subset of the extended
    ISO 8601 format: the `date-time` shape of section 5.6 of RFC 3339 with
    whole-hour offsets only, plus a few variants with ' ', ':' or '/' separators. */
module DateUtils {
  import opened Strings
  import opened JavaNumbers
  import opened Instants

  // ---------------------------------------------------------------------------
  // checkLayout: 'x' in the pattern stands for one digit, anything else for itself

  /** What `checkLayout(text, pattern)` decides. */
  predicate MatchesLayout(text: string, pattern: string) {
    |text| == |pattern| &&
    forall i :: 0 <= i < |pattern| ==> LayoutCharOk(text[i], pattern[i])
  }

  predicate LayoutCharOk(tc: char, pc: char) {
    if pc == 'x' then IsDigit(tc) else tc == pc
  }

  /** `checkLayout`: a length test, then one position at a time with an early return. */
  method CheckLayout(text: string, pattern: string) returns (r: bool)
    ensures r == MatchesLayout(text, pattern)
  {
    if |text| != |pattern| {
      return false;
    }
    var i := 0;
    while i < |pattern|
      invariant 0 <= i <= |pattern|
      invariant forall k :: 0 <= k < i ==> LayoutCharOk(text[k], pattern[k])
    {
      var pc := pattern[i];
      var tc := text[i];
      if pc == 'x' && IsDigit(tc) {
        // a digit where the pattern wants one
      } else if pc == 'x' || pc != tc {
        assert !LayoutCharOk(text[i], pattern[i]);
        return false;
      }
      i := i + 1;
    }
    return true;
  }

  // ---------------------------------------------------------------------------
  // parsePart2/3/4/6: fixed-width decimal fields (num(c) is Strings.DigitValue)

  function ParsePart2(str: string, off: nat): (r: int)
    requires off + 2 <= |str|
    ensures AllDigits(str[off..off + 2]) ==> r == DecimalValue(str[off..off + 2]) && 0 <= r < 100
  {
    DecimalValueStep(str, off, 0); DecimalValueStep(str, off, 1);
    10 * DigitValue(str[off]) + DigitValue(str[off + 1])
  }

  function ParsePart3(str: string, off: nat): (r: int)
    requires off + 3 <= |str|
    ensures AllDigits(str[off..off + 3]) ==> r == DecimalValue(str[off..off + 3]) && 0 <= r < 1000
  {
    DecimalValueStep(str, off, 0); DecimalValueStep(str, off, 1); DecimalValueStep(str, off, 2);
    100 * DigitValue(str[off]) + 10 * DigitValue(str[off + 1]) + DigitValue(str[off + 2])
  }

  function ParsePart4(str: string, off: nat): (r: int)
    requires off + 4 <= |str|
    ensures AllDigits(str[off..off + 4]) ==> r == DecimalValue(str[off..off + 4]) && 0 <= r < 10000
  {
    DecimalValueStep(str, off, 0); DecimalValueStep(str, off, 1); DecimalValueStep(str, off, 2);
    DecimalValueStep(str, off, 3);
    1000 * DigitValue(str[off]) + 100 * DigitValue(str[off + 1]) + 10 * DigitValue(str[off + 2])
      + DigitValue(str[off + 3])
  }

  function ParsePart6(str: string, off: nat): (r: int)
    requires off + 6 <= |str|
    ensures AllDigits(str[off..off + 6]) ==> r == DecimalValue(str[off..off + 6]) && 0 <= r < 1_000_000
  {
    SixDigitsAsTwoHalves(str, off);
    100000 * DigitValue(str[off]) + 10000 * DigitValue(str[off + 1]) + 1000 * DigitValue(str[off + 2])
      + 100 * DigitValue(str[off + 3]) + 10 * DigitValue(str[off + 4]) + DigitValue(str[off + 5])
  }

  /** Six digits read as two runs of three. */
  lemma SixDigitsAsTwoHalves(str: string, off: nat)
    requires off + 6 <= |str|
    ensures AllDigits(str[off..off + 6]) ==>
      AllDigits(str[off..off + 3]) && AllDigits(str[off + 3..off + 6]) &&
      DecimalValue(str[off..off + 6]) == 1000 * ParsePart3(str, off) + ParsePart3(str, off + 3)
  {
    if AllDigits(str[off..off + 6]) {
      assert str[off..off + 6] == str[off..off + 3] + str[off + 3..off + 6];
      var whole, hi, lo := str[off..off + 6], str[off..off + 3], str[off + 3..off + 6];
      forall i | 0 <= i < 3
        ensures IsDigit(hi[i]) && IsDigit(lo[i])
      {
        assert hi[i] == whole[i] && lo[i] == whole[i + 3];
      }
      DecimalValueConcat(str[off..off + 3], str[off + 3..off + 6]);
    }
  }

  // ---------------------------------------------------------------------------
  // The proleptic Gregorian calendar (the ISO chronology of java.time)

  predicate IsLeapYear(y: int) {
    y % 4 == 0 && (y % 100 != 0 || y % 400 == 0)
  }

  function YearLength(y: int): int {
    if IsLeapYear(y) then 366 else 365
  }

  function DaysInMonth(y: int, m: int): (r: int)
    requires 1 <= m <= 12
    ensures 28 <= r <= 31
  {
    if m == 2 then (if IsLeapYear(y) then 29 else 28)
    else if m == 4 || m == 6 || m == 9 || m == 11 then 30
    else 31
  }

  /** Days from 0000-01-01 to the first day of year `y`. */
  function DaysBeforeYear(y: nat): nat {
    365 * y + (y + 3) / 4 - (y + 99) / 100 + (y + 399) / 400
  }

  /** Days from the first of January of `y` to the first day of month `m` (13 means the next year). */
  function DaysBeforeMonth(y: int, m: int): nat
    requires 1 <= m <= 13
  {
    if m == 1 then 0 else DaysBeforeMonth(y, m - 1) + DaysInMonth(y, m - 1)
  }

  /** Days from 1970-01-01 to the given date. */
  function EpochDay(y: nat, m: int, d: int): int
    requires 1 <= m <= 12
  {
    DaysBeforeYear(y) + DaysBeforeMonth(y, m) + (d - 1) - DaysBeforeYear(1970)
  }

  /** The local date and time fields handed to `ZonedDateTime.of`. */
  datatype DateTime = DateTime(year: int, month: int, day: int,
                               hour: int, minute: int, second: int, nano: int)

  /** The field ranges `ZonedDateTime.of` accepts (the year is always 0..9999 here). */
  predicate ValidDateTime(t: DateTime) {
    0 <= t.year <= 9999 && 1 <= t.month <= 12 && 1 <= t.day <= DaysInMonth(t.year, t.month) &&
    0 <= t.hour <= 23 && 0 <= t.minute <= 59 && 0 <= t.second <= 59 &&
    0 <= t.nano < NanosPerSecond
  }

  /** The instant of the fields read in UTC. */
  function ToInstant(t: DateTime): (r: Instant)
    requires ValidDateTime(t)
    ensures r.Valid() && r.nano == t.nano
    ensures r.epochSecond / 86400 == EpochDay(t.year, t.month, t.day)
    ensures r.epochSecond % 86400 == t.hour * 3600 + t.minute * 60 + t.second
  {
    var day, time := EpochDay(t.year, t.month, t.day), t.hour * 3600 + t.minute * 60 + t.second;
    DivUnique(day * 86400 + time, 86400, day, time);
    Instant(day * 86400 + time, t.nano)
  }

  /** What `parseInstant` yields: an instant, the DateTimeException that
      `ZonedDateTime.of` throws for a field out of range, or a string that fits
      none of the fixed layouts (the slow fallback parsers are not modelled). */
  datatype ParseResult = Parsed(instant: Instant) | FieldOutOfRange | NoFixedLayout

  /** `ZonedDateTime.of(fields, UTC).plusHours(hours).toInstant()`. */
  function OfUtc(t: DateTime, hours: int): (r: ParseResult)
    ensures r.Parsed? <==> ValidDateTime(t)
    ensures r.Parsed? ==> r.instant == ToInstant(t).PlusSeconds(hours * 3600)
    ensures !r.NoFixedLayout?
  {
    if ValidDateTime(t) then Parsed(ToInstant(t).PlusSeconds(hours * 3600)) else FieldOutOfRange
  }

  predicate DateOnlyLayout(s: string) {
    MatchesLayout(s, "xxxx-xx-xx") || MatchesLayout(s, "xxxx-xx") || MatchesLayout(s, "xxxx")
  }

  predicate SecondsLayout(s: string) {
    MatchesLayout(s, "xxxx-xx-xxTxx:xx:xxZ") ||
    MatchesLayout(s, "xxxx-xx-xxTxx:xx:xx") ||
    MatchesLayout(s, "xxxx:xx:xx xx:xx:xx") ||
    MatchesLayout(s, "xxxx/xx/xx xx:xx:xx") ||
    MatchesLayout(s, "xxxx-xx-xx xx:xx:xxZ") ||
    MatchesLayout(s, "xxxx-xx-xx xx:xx:xx UTC") ||
    MatchesLayout(s, "xxxx-xx-xxTxx:xx:xx+xx") ||
    MatchesLayout(s, "xxxx-xx-xxTxx:xx:xx-xx") ||
    MatchesLayout(s, "xxxx-xx-xxTxx:xx:xx+xx:00") ||
    MatchesLayout(s, "xxxx-xx-xxTxx:xx:xx-xx:00")
  }

  predicate MillisLayout(s: string) {
    MatchesLayout(s, "xxxx-xx-xxTxx:xx:xx.xxxZ") ||
    MatchesLayout(s, "xxxx-xx-xxTxx:xx:xx.xxx") ||
    MatchesLayout(s, "xxxx:xx:xx xx:xx:xx.xxx") ||
    MatchesLayout(s, "xxxx/xx/xx xx:xx:xx.xxx") ||
    MatchesLayout(s, "xxxx-xx-xxTxx:xx:xx.xxx+xx:00") ||
    MatchesLayout(s, "xxxx-xx-xxTxx:xx:xx.xxx-xx:00")
  }

  predicate MicrosLayout(s: string) {
    MatchesLayout(s, "xxxx/xx/xx xx:xx:xx.xxxxxx")
  }

  /** The year..second fields every time-of-day layout has at the same offsets. */
  function TimeFields(s: string, nano: int): DateTime
    requires |s| >= 19
  {
    DateTime(ParsePart4(s, 0), ParsePart2(s, 5), ParsePart2(s, 8),
             ParsePart2(s, 11), ParsePart2(s, 14), ParsePart2(s, 17), nano)
  }

  /** `parseInstant`, the branches driven by the fixed layouts. */
  function ParseInstant(s: string): (r: ParseResult)
    ensures r.NoFixedLayout? <==>
      !DateOnlyLayout(s) && !SecondsLayout(s) && !MillisLayout(s) && !MicrosLayout(s)
  {
    if DateOnlyLayout(s) then
      OfUtc(DateTime(ParsePart4(s, 0),
                     if |s| > 5 then ParsePart2(s, 5) else 1,
                     if |s| > 8 then ParsePart2(s, 8) else 1,
                     0, 0, 0, 0), 0)
    else if SecondsLayout(s) then
      var local := TimeFields(s, 0);
      if |s| == 22 || |s| == 25 then
        var plusHr := ParsePart2(s, 20);
        OfUtc(local, if s[19] == '+' then -plusHr else plusHr)
      else OfUtc(local, 0)
    else if MillisLayout(s) then
      var local := TimeFields(s, ParsePart3(s, 20) * 1_000_000);
      if |s| == 29 then
        var plusHr := ParsePart2(s, 24);
        OfUtc(local, if s[23] == '+' then -plusHr else plusHr)
      else OfUtc(local, 0)
    else if MicrosLayout(s) then
      OfUtc(TimeFields(s, ParsePart6(s, 20) * 1_000), 0)
    else NoFixedLayout
  }

  // ---------------------------------------------------------------------------
  // Properties of the calendar

  lemma QuarterStep(y: nat)
    ensures (y + 4) / 4 - (y + 3) / 4 == if y % 4 == 0 then 1 else 0
  {
  }

  lemma CenturyStep(y: nat)
    ensures (y + 100) / 100 - (y + 99) / 100 == if y % 100 == 0 then 1 else 0
  {
  }

  lemma QuadCenturyStep(y: nat)
    ensures (y + 400) / 400 - (y + 399) / 400 == if y % 400 == 0 then 1 else 0
  {
  }

  lemma LeapDivisors(y: nat)
    ensures y % 400 == 0 ==> y % 100 == 0
    ensures y % 100 == 0 ==> y % 4 == 0
  {
    if y % 400 == 0 {
      assert y == (4 * (y / 400)) * 100;
      DivUnique(y, 100, 4 * (y / 400), 0);
    }
    if y % 100 == 0 {
      assert y == (25 * (y / 100)) * 4;
      DivUnique(y, 4, 25 * (y / 100), 0);
    }
  }

  /** Each year contributes its length in days. */
  lemma DaysBeforeNextYear(y: nat)
    ensures DaysBeforeYear(y + 1) == DaysBeforeYear(y) + YearLength(y)
  {
    QuarterStep(y);
    CenturyStep(y);
    QuadCenturyStep(y);
    LeapDivisors(y);
  }

  /** The twelve months make up the year. */
  lemma MonthsMakeYear(y: int)
    ensures DaysBeforeMonth(y, 13) == YearLength(y)
  {
    assert DaysBeforeMonth(y, 2) == 31;
    assert DaysBeforeMonth(y, 3) == 31 + DaysInMonth(y, 2);
    assert DaysBeforeMonth(y, 4) == 62 + DaysInMonth(y, 2);
    assert DaysBeforeMonth(y, 5) == 92 + DaysInMonth(y, 2);
    assert DaysBeforeMonth(y, 6) == 123 + DaysInMonth(y, 2);
    assert DaysBeforeMonth(y, 7) == 153 + DaysInMonth(y, 2);
    assert DaysBeforeMonth(y, 8) == 184 + DaysInMonth(y, 2);
    assert DaysBeforeMonth(y, 9) == 215 + DaysInMonth(y, 2);
    assert DaysBeforeMonth(y, 10) == 245 + DaysInMonth(y, 2);
    assert DaysBeforeMonth(y, 11) == 276 + DaysInMonth(y, 2);
    assert DaysBeforeMonth(y, 12) == 306 + DaysInMonth(y, 2);
  }

  /** The calendar day that follows a valid date. */
  function NextDay(y: nat, m: int, d: int): (r: (nat, int, int))
    requires 1 <= m <= 12 && 1 <= d <= DaysInMonth(y, m)
    ensures 1 <= r.1 <= 12 && 1 <= r.2 <= DaysInMonth(r.0, r.1)
  {
    if d < DaysInMonth(y, m) then (y, m, d + 1)
    else if m < 12 then (y, m + 1, 1)
    else (y + 1, 1, 1)
  }

  /** EpochDay counts consecutive calendar days as consecutive numbers, across
      month and year ends, so it numbers the proleptic Gregorian calendar
      without gaps or repeats. */
  lemma EpochDayOfNextDay(y: nat, m: int, d: int)
    requires 1 <= m <= 12 && 1 <= d <= DaysInMonth(y, m)
    ensures var n := NextDay(y, m, d); EpochDay(n.0, n.1, n.2) == EpochDay(y, m, d) + 1
  {
    if d == DaysInMonth(y, m) && m == 12 {
      DaysBeforeNextYear(y);
      MonthsMakeYear(y);
    }
  }

  /** Day 0 is 1970-01-01, the Java epoch. */
  lemma EpochDayOfEpoch()
    ensures EpochDay(1970, 1, 1) == 0
    ensures DaysBeforeYear(1970) == 719528
  {
  }

  // ---------------------------------------------------------------------------
  // Properties of the layout-driven parser

  /** Layout matching composes over concatenation. */
  lemma LayoutConcat(t1: string, p1: string, t2: string, p2: string)
    requires MatchesLayout(t1, p1) && MatchesLayout(t2, p2)
    ensures MatchesLayout(t1 + t2, p1 + p2)
  {
    forall i | 0 <= i < |p1 + p2|
      ensures LayoutCharOk((t1 + t2)[i], (p1 + p2)[i])
    {
      if i < |p1| {
        assert LayoutCharOk(t1[i], p1[i]);
      } else {
        assert LayoutCharOk(t2[i - |p1|], p2[i - |p1|]);
      }
    }
  }

  /** A one-character literal fits itself. */
  lemma LiteralLayout(c: string)
    requires |c| == 1 && c[0] != 'x'
    ensures MatchesLayout(c, c)
  {
    assert LayoutCharOk(c[0], c[0]);
  }

  /** The year..second fields are read from the first 19 characters only. */
  lemma TimeFieldsOfPrefix(base: string, rest: string, nano: int)
    requires |base| >= 19
    ensures TimeFields(base + rest, nano) == TimeFields(base, nano)
  {
    var s := base + rest;
    assert s[0] == base[0] && s[1] == base[1] && s[2] == base[2] && s[3] == base[3];
    assert s[5] == base[5] && s[6] == base[6] && s[8] == base[8] && s[9] == base[9];
    assert s[11] == base[11] && s[12] == base[12] && s[14] == base[14] && s[15] == base[15];
    assert s[17] == base[17] && s[18] == base[18];
  }

  /** The result of `parseInstant` moved by a number of hours. */
  function ShiftHours(r: ParseResult, hours: int): ParseResult {
    if r.Parsed? then Parsed(r.instant.PlusSeconds(hours * 3600)) else r
  }

  /** Midnight of a date, read in UTC. */
  function Midnight(y: int, m: int, d: int): DateTime {
    DateTime(y, m, d, 0, 0, 0, 0)
  }

  /** A valid date's midnight falls on a whole day of the epoch. */
  lemma MidnightIsWholeDay(y: int, m: int, d: int)
    requires ValidDateTime(Midnight(y, m, d))
    ensures ToInstant(Midnight(y, m, d)).nano == 0
    ensures ToInstant(Midnight(y, m, d)).epochSecond % 86400 == 0
  {
    var e := EpochDay(y, m, d);
    assert ToInstant(Midnight(y, m, d)).epochSecond == e * 86400;
    DivUnique(e * 86400, 86400, e, 0);
  }

  lemma DivUnique(a: int, k: int, q: int, r: int)
    requires (k == 4 || k == 100 || k == 86400) && 0 <= r < k && a == q * k + r
    ensures a % k == r && a / k == q
  {
  }

  /** The year-only form is the first of January at midnight UTC. */
  lemma YearForm(s: string)
    requires MatchesLayout(s, "xxxx")
    ensures ParseInstant(s) == OfUtc(Midnight(ParsePart4(s, 0), 1, 1), 0)
  {
    assert LayoutCharOk(s[0], 'x') && LayoutCharOk(s[1], 'x') && LayoutCharOk(s[2], 'x') && LayoutCharOk(s[3], 'x');
    assert AllDigits(s[0..4]);
  }

  /** The year-month form is the first of the month at midnight UTC. */
  lemma YearMonthForm(s: string)
    requires MatchesLayout(s, "xxxx-xx")
    ensures ParseInstant(s) == OfUtc(Midnight(ParsePart4(s, 0), ParsePart2(s, 5), 1), 0)
  {
  }

  /** The full date form is that date at midnight UTC. */
  lemma DateForm(s: string)
    requires MatchesLayout(s, "xxxx-xx-xx")
    ensures ParseInstant(s) == OfUtc(Midnight(ParsePart4(s, 0), ParsePart2(s, 5), ParsePart2(s, 8)), 0)
  {
  }

  /** The date-only forms give midnight UTC, a missing month or day counting as 1,
      and are never left to the fallback parsers; a year alone always parses. */
  lemma DateOnlyForms(s: string)
    requires DateOnlyLayout(s)
    ensures ParseInstant(s) != NoFixedLayout
    ensures ParseInstant(s).Parsed? ==>
      ParseInstant(s).instant.nano == 0 && ParseInstant(s).instant.epochSecond % 86400 == 0
    ensures |s| == 4 ==> ParseInstant(s) == Parsed(ToInstant(Midnight(ParsePart4(s, 0), 1, 1)))
    ensures |s| == 7 ==> ParseInstant(s) == OfUtc(Midnight(ParsePart4(s, 0), ParsePart2(s, 5), 1), 0)
    ensures |s| == 10 ==>
      ParseInstant(s) == OfUtc(Midnight(ParsePart4(s, 0), ParsePart2(s, 5), ParsePart2(s, 8)), 0)
  {
    var y := ParsePart4(s, 0);
    if |s| == 4 {
      YearForm(s);
      assert ValidDateTime(Midnight(y, 1, 1)) by {
        assert LayoutCharOk(s[0], 'x') && LayoutCharOk(s[1], 'x') && LayoutCharOk(s[2], 'x') && LayoutCharOk(s[3], 'x');
        assert AllDigits(s[0..4]);
      }
      MidnightIsWholeDay(y, 1, 1);
    } else if |s| == 7 {
      YearMonthForm(s);
      if ValidDateTime(Midnight(y, ParsePart2(s, 5), 1)) {
        MidnightIsWholeDay(y, ParsePart2(s, 5), 1);
      }
    } else {
      DateForm(s);
      if ValidDateTime(Midnight(y, ParsePart2(s, 5), ParsePart2(s, 8))) {
        MidnightIsWholeDay(y, ParsePart2(s, 5), ParsePart2(s, 8));
      }
    }
  }

  /** The plain "xxxx-xx-xxTxx:xx:xx" form reads the fields in UTC. */
  lemma SecondsPlainForm(s: string)
    requires MatchesLayout(s, "xxxx-xx-xxTxx:xx:xx")
    ensures ParseInstant(s) == OfUtc(TimeFields(s, 0), 0)
  {
  }

  /** The whole-second forms with an hour offset, signed at index 19. */
  lemma SecondsOffsetForm(s: string)
    requires MatchesLayout(s, "xxxx-xx-xxTxx:xx:xx+xx") || MatchesLayout(s, "xxxx-xx-xxTxx:xx:xx-xx") ||
             MatchesLayout(s, "xxxx-xx-xxTxx:xx:xx+xx:00") || MatchesLayout(s, "xxxx-xx-xxTxx:xx:xx-xx:00")
    ensures ParseInstant(s) ==
      OfUtc(TimeFields(s, 0), if s[19] == '+' then -ParsePart2(s, 20) else ParsePart2(s, 20))
  {
  }

  /** The first 19 characters of a time-of-day layout fit the plain seconds layout. */
  lemma PlainPrefix(s: string, pattern: string)
    requires MatchesLayout(s, pattern) && |pattern| >= 19
    requires pattern[..19] == "xxxx-xx-xxTxx:xx:xx"
    ensures MatchesLayout(s[..19], "xxxx-xx-xxTxx:xx:xx")
    ensures TimeFields(s, 0) == TimeFields(s[..19], 0)
  {
    forall i | 0 <= i < 19
      ensures LayoutCharOk(s[..19][i], "xxxx-xx-xxTxx:xx:xx"[i])
    {
      assert LayoutCharOk(s[i], pattern[i]);
      assert pattern[i] == pattern[..19][i];
    }
    TimeFieldsOfPrefix(s[..19], s[19..], 0);
    assert s[..19] + s[19..] == s;
  }

  /** An offset form whose fields agree with a plain form parses to the plain result shifted. */
  lemma SecondsOffsetCore(base: string, s: string, shift: int)
    requires MatchesLayout(base, "xxxx-xx-xxTxx:xx:xx")
    requires MatchesLayout(s, "xxxx-xx-xxTxx:xx:xx+xx") || MatchesLayout(s, "xxxx-xx-xxTxx:xx:xx-xx") ||
             MatchesLayout(s, "xxxx-xx-xxTxx:xx:xx+xx:00") || MatchesLayout(s, "xxxx-xx-xxTxx:xx:xx-xx:00")
    requires TimeFields(s, 0) == TimeFields(base, 0)
    requires shift == if s[19] == '+' then -ParsePart2(s, 20) else ParsePart2(s, 20)
    ensures ParseInstant(s) == ShiftHours(ParseInstant(base), shift)
  {
    SecondsPlainForm(base);
    SecondsOffsetForm(s);
  }

  /** The plain prefix of the four whole-second offset layouts. */
  lemma OffsetPrefix(s: string)
    requires MatchesLayout(s, "xxxx-xx-xxTxx:xx:xx+xx") || MatchesLayout(s, "xxxx-xx-xxTxx:xx:xx-xx") ||
             MatchesLayout(s, "xxxx-xx-xxTxx:xx:xx+xx:00") || MatchesLayout(s, "xxxx-xx-xxTxx:xx:xx-xx:00")
    ensures MatchesLayout(s[..19], "xxxx-xx-xxTxx:xx:xx")
    ensures TimeFields(s, 0) == TimeFields(s[..19], 0)
  {
    if MatchesLayout(s, "xxxx-xx-xxTxx:xx:xx+xx") {
      PlainPrefix(s, "xxxx-xx-xxTxx:xx:xx+xx");
    } else if MatchesLayout(s, "xxxx-xx-xxTxx:xx:xx-xx") {
      PlainPrefix(s, "xxxx-xx-xxTxx:xx:xx-xx");
    } else if MatchesLayout(s, "xxxx-xx-xxTxx:xx:xx+xx:00") {
      PlainPrefix(s, "xxxx-xx-xxTxx:xx:xx+xx:00");
    } else {
      PlainPrefix(s, "xxxx-xx-xxTxx:xx:xx-xx:00");
    }
  }

  /** A whole-hour offset is undone on the instant: the form "+hh" (or "+hh:00")
      yields the UTC reading of its first 19 characters moved back by hh hours,
      and "-hh" moves it forward. */
  lemma SecondsOffsetCorrection(s: string)
    requires MatchesLayout(s, "xxxx-xx-xxTxx:xx:xx+xx") || MatchesLayout(s, "xxxx-xx-xxTxx:xx:xx-xx") ||
             MatchesLayout(s, "xxxx-xx-xxTxx:xx:xx+xx:00") || MatchesLayout(s, "xxxx-xx-xxTxx:xx:xx-xx:00")
    ensures AllDigits(s[20..22]) && ParsePart2(s, 20) == DecimalValue(s[20..22])
    ensures ParseInstant(s) ==
      ShiftHours(ParseInstant(s[..19]), if s[19] == '+' then -ParsePart2(s, 20) else ParsePart2(s, 20))
  {
    var pattern := if MatchesLayout(s, "xxxx-xx-xxTxx:xx:xx+xx") then "xxxx-xx-xxTxx:xx:xx+xx"
      else if MatchesLayout(s, "xxxx-xx-xxTxx:xx:xx-xx") then "xxxx-xx-xxTxx:xx:xx-xx"
      else if MatchesLayout(s, "xxxx-xx-xxTxx:xx:xx+xx:00") then "xxxx-xx-xxTxx:xx:xx+xx:00"
      else "xxxx-xx-xxTxx:xx:xx-xx:00";
    OffsetDigits(s, pattern);
    OffsetPrefix(s);
    SecondsOffsetCore(s[..19], s, if s[19] == '+' then -ParsePart2(s, 20) else ParsePart2(s, 20));
  }

  /** The two offset digits of a layout with 'x' at indices 20 and 21. */
  lemma OffsetDigits(s: string, pattern: string)
    requires MatchesLayout(s, pattern) && |pattern| >= 22 && pattern[20] == 'x' && pattern[21] == 'x'
    ensures AllDigits(s[20..22]) && ParsePart2(s, 20) == DecimalValue(s[20..22])
  {
    assert LayoutCharOk(s[20], pattern[20]) && LayoutCharOk(s[21], pattern[21]);
  }

  /** A trailing 'Z' names UTC: the form parses like its first 19 characters. */
  lemma SecondsZuluForm(s: string)
    requires MatchesLayout(s, "xxxx-xx-xxTxx:xx:xxZ")
    ensures ParseInstant(s) == ParseInstant(s[..19])
  {
    PlainPrefix(s, "xxxx-xx-xxTxx:xx:xxZ");
    SecondsPlainForm(s[..19]);
  }

  /** The millisecond forms, their fraction read as milliseconds, UTC or offset at index 23. */
  lemma MillisForm(s: string)
    requires MatchesLayout(s, "xxxx-xx-xxTxx:xx:xx.xxx") ||
             MatchesLayout(s, "xxxx-xx-xxTxx:xx:xx.xxx+xx:00") || MatchesLayout(s, "xxxx-xx-xxTxx:xx:xx.xxx-xx:00")
    ensures ParseInstant(s) ==
      OfUtc(TimeFields(s, DecimalValue(s[20..23]) * 1_000_000),
            if |s| == 29 then (if s[23] == '+' then -ParsePart2(s, 24) else ParsePart2(s, 24)) else 0)
  {
    assert LayoutCharOk(s[19], '.') && LayoutCharOk(s[10], 'T');
    assert LayoutCharOk(s[20], 'x') && LayoutCharOk(s[21], 'x') && LayoutCharOk(s[22], 'x');
    assert AllDigits(s[20..23]);
    assert !SecondsLayout(s) by {
      assert !LayoutCharOk(s[19], ' ');
      assert !LayoutCharOk(s[10], ' ');
    }
  }

  /** The remaining millisecond forms, 'Z'-suffixed or with ':' or '/' date
      separators, read the fraction as milliseconds in UTC. */
  lemma MillisUtcForms(s: string)
    requires MatchesLayout(s, "xxxx-xx-xxTxx:xx:xx.xxxZ") ||
             MatchesLayout(s, "xxxx:xx:xx xx:xx:xx.xxx") || MatchesLayout(s, "xxxx/xx/xx xx:xx:xx.xxx")
    ensures ParseInstant(s) == OfUtc(TimeFields(s, DecimalValue(s[20..23]) * 1_000_000), 0)
  {
    assert LayoutCharOk(s[19], '.');
    assert LayoutCharOk(s[20], 'x') && LayoutCharOk(s[21], 'x') && LayoutCharOk(s[22], 'x');
    assert AllDigits(s[20..23]);
    assert !SecondsLayout(s) by {
      assert !LayoutCharOk(s[19], ' ');
    }
  }

  /** The first 23 characters of a millisecond offset form fit the plain millisecond layout. */
  lemma MillisPrefix(s: string, pattern: string)
    requires MatchesLayout(s, pattern) && |pattern| >= 23
    requires pattern[..23] == "xxxx-xx-xxTxx:xx:xx.xxx"
    ensures MatchesLayout(s[..23], "xxxx-xx-xxTxx:xx:xx.xxx")
    ensures s[..23][20..23] == s[20..23]
    ensures forall nano :: TimeFields(s, nano) == TimeFields(s[..23], nano)
  {
    forall i | 0 <= i < 23
      ensures LayoutCharOk(s[..23][i], "xxxx-xx-xxTxx:xx:xx.xxx"[i])
    {
      assert LayoutCharOk(s[i], pattern[i]);
      assert pattern[i] == pattern[..23][i];
    }
    forall nano: int
      ensures TimeFields(s, nano) == TimeFields(s[..23], nano)
    {
      TimeFieldsOfPrefix(s[..23], s[23..], nano);
    }
    assert s[..23] + s[23..] == s;
  }

  /** A millisecond offset form whose fields agree with the plain one parses to its result shifted. */
  lemma MillisOffsetCore(base: string, s: string, shift: int)
    requires MatchesLayout(base, "xxxx-xx-xxTxx:xx:xx.xxx")
    requires MatchesLayout(s, "xxxx-xx-xxTxx:xx:xx.xxx+xx:00") || MatchesLayout(s, "xxxx-xx-xxTxx:xx:xx.xxx-xx:00")
    requires s[20..23] == base[20..23]
    requires TimeFields(s, DecimalValue(s[20..23]) * 1_000_000) == TimeFields(base, DecimalValue(base[20..23]) * 1_000_000)
    requires shift == if s[23] == '+' then -ParsePart2(s, 24) else ParsePart2(s, 24)
    ensures ParseInstant(s) == ShiftHours(ParseInstant(base), shift)
  {
    MillisForm(base);
    MillisForm(s);
  }

  /** The millisecond offset forms: the instant of the first 23 characters moved
      back by the offset hours at index 24 for '+', forward for '-'. */
  lemma MillisOffsetCorrection(s: string)
    requires MatchesLayout(s, "xxxx-xx-xxTxx:xx:xx.xxx+xx:00") || MatchesLayout(s, "xxxx-xx-xxTxx:xx:xx.xxx-xx:00")
    ensures AllDigits(s[24..26]) && ParsePart2(s, 24) == DecimalValue(s[24..26])
    ensures ParseInstant(s) ==
      ShiftHours(ParseInstant(s[..23]), if s[23] == '+' then -ParsePart2(s, 24) else ParsePart2(s, 24))
  {
    MillisOffsetPrefix(s);
    MillisOffsetCore(s[..23], s, if s[23] == '+' then -ParsePart2(s, 24) else ParsePart2(s, 24));
  }

  /** The plain prefix and the offset digits of the two millisecond offset layouts. */
  lemma MillisOffsetPrefix(s: string)
    requires MatchesLayout(s, "xxxx-xx-xxTxx:xx:xx.xxx+xx:00") || MatchesLayout(s, "xxxx-xx-xxTxx:xx:xx.xxx-xx:00")
    ensures AllDigits(s[24..26]) && ParsePart2(s, 24) == DecimalValue(s[24..26])
    ensures MatchesLayout(s[..23], "xxxx-xx-xxTxx:xx:xx.xxx")
    ensures s[..23][20..23] == s[20..23]
    ensures TimeFields(s, DecimalValue(s[20..23]) * 1_000_000) ==
            TimeFields(s[..23], DecimalValue(s[..23][20..23]) * 1_000_000)
  {
    assert LayoutCharOk(s[24], 'x') && LayoutCharOk(s[25], 'x');
    assert LayoutCharOk(s[20], 'x') && LayoutCharOk(s[21], 'x') && LayoutCharOk(s[22], 'x');
    assert AllDigits(s[20..23]);
    if MatchesLayout(s, "xxxx-xx-xxTxx:xx:xx.xxx+xx:00") {
      MillisPrefix(s, "xxxx-xx-xxTxx:xx:xx.xxx+xx:00");
    } else {
      MillisPrefix(s, "xxxx-xx-xxTxx:xx:xx.xxx-xx:00");
    }
  }

  /** The microsecond form reads six fraction digits as microseconds, in UTC. */
  lemma MicrosForm(s: string)
    requires MicrosLayout(s)
    ensures ParseInstant(s) == OfUtc(TimeFields(s, DecimalValue(s[20..26]) * 1_000), 0)
  {
    assert LayoutCharOk(s[4], '/') && LayoutCharOk(s[10], ' ') && LayoutCharOk(s[19], '.');
    assert forall k :: 20 <= k < 26 ==> LayoutCharOk(s[k], "xxxx/xx/xx xx:xx:xx.xxxxxx"[k]);
    assert AllDigits(s[20..26]);
    assert !SecondsLayout(s) by {
      assert !LayoutCharOk(s[4], '-') && !LayoutCharOk(s[4], ':');
    }
    assert !MillisLayout(s);
  }

  /** Two digits, zero-padded. */
  function Pad2(v: nat): (s: string)
    requires v < 100
    ensures |s| == 2 && MatchesLayout(s, "xx") && ParsePart2(s, 0) == v
  {
    var s := [DigitChar(v / 10), DigitChar(v % 10)];
    assert LayoutCharOk(s[0], 'x') && LayoutCharOk(s[1], 'x');
    s
  }

  /** Four digits, zero-padded. */
  function Pad4(v: nat): (s: string)
    requires v < 10000
    ensures |s| == 4 && MatchesLayout(s, "xxxx") && ParsePart4(s, 0) == v
  {
    var s := [DigitChar(v / 100 / 10), DigitChar(v / 100 % 10)] + Pad2(v % 100);
    assert LayoutCharOk(s[0], 'x') && LayoutCharOk(s[1], 'x') && LayoutCharOk(s[2], 'x') && LayoutCharOk(s[3], 'x');
    assert ParsePart4(s, 0) == 100 * ParsePart2(s[..2], 0) + ParsePart2(s[2..], 0);
    s
  }

  /** A reference rendering of whole-second UTC fields in the layout "xxxx-xx-xxTxx:xx:xxZ". */
  function FormatUtc(t: DateTime): (s: string)
    requires ValidDateTime(t)
    ensures |s| == 20
  {
    FormatDate(t) + "T" + FormatTime(t) + "Z"
  }

  /** The date half, "xxxx-xx-xx". */
  function FormatDate(t: DateTime): (s: string)
    requires ValidDateTime(t)
    ensures MatchesLayout(s, "xxxx-xx-xx")
    ensures ParsePart4(s, 0) == t.year && ParsePart2(s, 5) == t.month && ParsePart2(s, 8) == t.day
  {
    var y, mo, d := Pad4(t.year), Pad2(t.month), Pad2(t.day);
    var s := y + "-" + mo + "-" + d;
    assert LayoutCharOk(y[0], "xxxx"[0]) && LayoutCharOk(y[1], "xxxx"[1]);
    assert LayoutCharOk(y[2], "xxxx"[2]) && LayoutCharOk(y[3], "xxxx"[3]);
    assert LayoutCharOk(mo[0], "xx"[0]) && LayoutCharOk(mo[1], "xx"[1]) && LayoutCharOk(d[0], "xx"[0]) && LayoutCharOk(d[1], "xx"[1]);
    assert s[0] == y[0] && s[1] == y[1] && s[2] == y[2] && s[3] == y[3] && s[4] == '-';
    assert s[5] == mo[0] && s[6] == mo[1] && s[7] == '-' && s[8] == d[0] && s[9] == d[1];
    s
  }

  /** The time half, "xx:xx:xx". */
  function FormatTime(t: DateTime): (s: string)
    requires ValidDateTime(t)
    ensures MatchesLayout(s, "xx:xx:xx")
    ensures ParsePart2(s, 0) == t.hour && ParsePart2(s, 3) == t.minute && ParsePart2(s, 6) == t.second
  {
    var h, mi, se := Pad2(t.hour), Pad2(t.minute), Pad2(t.second);
    var s := h + ":" + mi + ":" + se;
    assert LayoutCharOk(h[0], "xx"[0]) && LayoutCharOk(h[1], "xx"[1]) && LayoutCharOk(mi[0], "xx"[0]) && LayoutCharOk(mi[1], "xx"[1]);
    assert LayoutCharOk(se[0], "xx"[0]) && LayoutCharOk(se[1], "xx"[1]);
    assert s[0] == h[0] && s[1] == h[1] && s[2] == ':' && s[3] == mi[0] && s[4] == mi[1];
    assert s[5] == ':' && s[6] == se[0] && s[7] == se[1];
    s
  }

  /** The rendering fits the layout. */
  lemma FormatUtcLayout(t: DateTime)
    requires ValidDateTime(t)
    ensures MatchesLayout(FormatUtc(t), "xxxx-xx-xxTxx:xx:xxZ")
  {
    LiteralLayout("T");
    LiteralLayout("Z");
    LayoutConcat(FormatDate(t), "xxxx-xx-xx", "T", "T");
    LayoutConcat(FormatDate(t) + "T", "xxxx-xx-xxT", FormatTime(t), "xx:xx:xx");
    LayoutConcat(FormatDate(t) + "T" + FormatTime(t), "xxxx-xx-xxTxx:xx:xx", "Z", "Z");
  }

  /** The rendering puts each field at the offset the parser reads it from. */
  lemma FormatUtcFields(t: DateTime)
    requires ValidDateTime(t)
    ensures TimeFields(FormatUtc(t), 0) == t.(nano := 0)
  {
    var s, date, time := FormatUtc(t), FormatDate(t), FormatTime(t);
    assert s[0] == date[0] && s[1] == date[1] && s[2] == date[2] && s[3] == date[3];
    assert s[5] == date[5] && s[6] == date[6] && s[8] == date[8] && s[9] == date[9];
    assert s[11] == time[0] && s[12] == time[1] && s[14] == time[3] && s[15] == time[4];
    assert s[17] == time[6] && s[18] == time[7];
  }

  /** Parsing the rendering of valid whole-second fields gives back their instant. */
  lemma ParseFormatUtc(t: DateTime)
    requires ValidDateTime(t) && t.nano == 0
    ensures ParseInstant(FormatUtc(t)) == Parsed(ToInstant(t))
  {
    FormatUtcLayout(t);
    FormatUtcFields(t);
  }

  // ---------------------------------------------------------------------------
  // fromTimestamp: the millisecond value handed to the formatter

  /** `fromTimestamp(long)`: seconds to milliseconds, saturating like `TimeUnit`. */
  function FromTimestampLong(timestamp: int): (millis: int)
    requires IsLong(timestamp)
    ensures IsLong(millis)
    ensures IsLong(timestamp * 1000) ==> millis == timestamp * 1000
    ensures !IsLong(timestamp * 1000) ==> millis == (if timestamp > 0 then LongMax else LongMin)
  {
    SecondsToMillis(timestamp)
  }

  /** `fromTimestamp(int)`: the int is read as unsigned, then converted; never saturates or goes negative. */
  function FromTimestampInt(timestamp: int): (millis: int)
    requires IsInt(timestamp)
    ensures 0 <= millis < TwoTo32 * 1000
    ensures millis == (if timestamp < 0 then timestamp + TwoTo32 else timestamp) * 1000
  {
    FromTimestampLong(ToUnsignedLong(timestamp))
  }
}
