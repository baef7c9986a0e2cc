/** Calendar dates from a second count: the closed form of the clock against the Gregorian
    calendar counted day by day. */
module Clock {
  import opened Json
  import opened Utf16

  datatype Date = Date(year: int, month: int, day: int)

  // ---------- the calendar, one day at a time ----------

  predicate Leap(y: int) { y % 4 == 0 && (y % 100 != 0 || y % 400 == 0) }

  function MonthLength(y: int, m: int): int
  {
    if m == 2 then if Leap(y) then 29 else 28
    else if m == 4 || m == 6 || m == 9 || m == 11 then 30
    else 31
  }

  predicate RealDate(d: Date) { 1 <= d.month <= 12 && 1 <= d.day <= MonthLength(d.year, d.month) }

  function NextDay(d: Date): Date
  {
    if d.day < MonthLength(d.year, d.month) then d.(day := d.day + 1)
    else if d.month < 12 then Date(d.year, d.month + 1, 1)
    else Date(d.year + 1, 1, 1)
  }

  // ---------- the closed form ----------

  function YearOfEra(doe: int): int { (doe - doe / 1460 + doe / 36_524 - doe / 146_096) / 365 }

  /** First day of March-based year `y` of an era. */
  function YearStart(y: int): int { 365 * y + y / 4 - y / 100 }

  function FromMarch(year400: int, doy: int): Date
  {
    var mp := (5 * doy + 2) / 153;
    var day := doy - (153 * mp + 2) / 5 + 1;
    var month := if mp < 10 then mp + 3 else mp - 9;
    Date(if month <= 2 then year400 + 1 else year400, month, day)
  }

  /** `days_to_ymd`: the date of a day counted from 1970-01-01. */
  function DaysToYmd(days: int): Date
  {
    var z := days + 719_468;
    var era := z / 146_097;
    var doe := z % 146_097;
    var yoe := YearOfEra(doe);
    FromMarch(yoe + era * 400, doe - YearStart(yoe))
  }

  // ---------- agreement ----------

  /** Days in March-based year `y` of an era: its February is that of calendar year y + 1. */
  function YearLength(y: int): int { if Leap(y + 1) then 366 else 365 }

  lemma YearStartStep(y: int)
    requires 0 <= y < 400
    ensures (if y == 399 then 146_097 else YearStart(y + 1)) == YearStart(y) + YearLength(y)
  {
    assert (y + 1) / 4 == if (y + 1) % 4 == 0 then y / 4 + 1 else y / 4;
    assert (y + 1) / 100 == if (y + 1) % 100 == 0 then y / 100 + 1 else y / 100;
  }

  // The same step over plain linear bounds: g and q stand for doe / 1460 and y / 4.
  lemma CenturyBounds(doe: int, c: int, g: int, y: int, q: int)
    requires 0 <= c <= 3 && 36_524 * c <= doe < 36_524 * (c + 1)
    requires 1460 * g <= doe < 1460 * g + 1460
    requires 365 * y <= doe - g + c < 365 * y + 365
    requires 4 * q <= y < 4 * q + 4
    ensures 100 * c <= y < 100 * c + 100
    ensures 0 <= doe - (365 * y + q - c) <= 365
    ensures doe - (365 * y + q - c) == 365 ==> y == 4 * q + 3 && y != 100 * c + 99
  {
  }

  lemma YearOfEraInCentury(doe: int, c: int)
    requires 0 <= c <= 3 && 36_524 * c <= doe < 36_524 * (c + 1) && doe < 146_096
    ensures var y := YearOfEra(doe); 100 * c <= y < 100 * c + 100 && 0 <= doe - YearStart(y) < YearLength(y)
  {
    var y := YearOfEra(doe);
    assert doe / 36_524 == c && doe / 146_096 == 0;
    CenturyBounds(doe, c, doe / 1460, y, y / 4);
    assert y / 100 == c;
  }

  /** Each day of an era falls in exactly one March-based year. */
  predicate InYear(doe: int, y: int) { 0 <= y < 400 && 0 <= doe - YearStart(y) < YearLength(y) }

  lemma YearOfEraIs(doe: int)
    requires 0 <= doe < 146_097
    ensures InYear(doe, YearOfEra(doe))
  {
    if doe < 146_096 {
      YearOfEraInCentury(doe, doe / 36_524);
    } else {
      assert YearOfEra(doe) == 399;
    }
  }

  lemma {:induction false} YearStartGrows(x: int, y: int)
    requires 0 <= x < y < 400
    ensures YearStart(x) + YearLength(x) <= YearStart(y)
    decreases y - x
  {
    YearStartStep(x);
    if x + 1 < y {
      YearStartGrows(x + 1, y);
    }
  }

  lemma InYearUnique(doe: int, x: int, y: int)
    requires InYear(doe, x) && InYear(doe, y)
    ensures x == y
  {
    if x < y {
      YearStartGrows(x, y);
    } else if y < x {
      YearStartGrows(y, x);
    }
  }

  // Within a March-based year, the next day of the year is the next calendar day.
  lemma NextWithinYear(y: int, doy: int)
    requires 0 <= doy && doy + 1 < (if Leap(y + 1) then 366 else 365)
    ensures RealDate(FromMarch(y, doy)) && FromMarch(y, doy + 1) == NextDay(FromMarch(y, doy))
  {
    var mp := (5 * doy + 2) / 153;
    assert mp == 0 || mp == 1 || mp == 2 || mp == 3 || mp == 4 || mp == 5 ||
           mp == 6 || mp == 7 || mp == 8 || mp == 9 || mp == 10 || mp == 11;
  }

  lemma NextAcrossYears(y: int)
    ensures var last := (if Leap(y + 1) then 366 else 365) - 1;
      RealDate(FromMarch(y, last)) && FromMarch(y + 1, 0) == NextDay(FromMarch(y, last))
  {
  }

  lemma LeapOfEra(y: int, era: int)
    ensures Leap(y + 400 * era) == Leap(y)
  {
    var x := y + 400 * era;
    assert x / 4 == y / 4 + 100 * era;
    assert x / 100 == y / 100 + 4 * era;
    assert x / 400 == y / 400 + era;
  }

  lemma NextDayOfEra(doe: int)
    requires 0 <= doe < 146_096
    ensures var y, doy := YearOfEra(doe), doe - YearStart(YearOfEra(doe));
      0 <= y < 400 && 0 <= doy < YearLength(y) &&
      if doy + 1 < YearLength(y)
      then YearOfEra(doe + 1) == y
      else y < 399 && YearOfEra(doe + 1) == y + 1 && doe + 1 == YearStart(y + 1)
  {
    var y := YearOfEra(doe);
    YearOfEraIs(doe);
    YearOfEraIs(doe + 1);
    YearStartStep(y);
    if doe - YearStart(y) + 1 < YearLength(y) {
      InYearUnique(doe + 1, YearOfEra(doe + 1), y);
    } else {
      InYearUnique(doe + 1, YearOfEra(doe + 1), y + 1);
    }
  }

  /** Day 0 is the Unix epoch. */
  lemma EpochDay()
    ensures DaysToYmd(0) == Date(1970, 1, 1)
  {
    DateOfEraIs(0, 4, 135_080);
  }

  /** On every day, past or future, the closed form gives a real date, and the following day
      gives its calendar successor. */
  lemma DaysFollowCalendar(days: int)
    ensures RealDate(DaysToYmd(days)) && DaysToYmd(days + 1) == NextDay(DaysToYmd(days))
  {
    var z := days + 719_468;
    var era, doe := z / 146_097, z % 146_097;
    DateOfEraIs(days, era, doe);
    if doe == 146_096 {
      DateOfEraIs(days + 1, era + 1, 0);
    } else {
      DateOfEraIs(days + 1, era, doe + 1);
    }
    EraFollows(era, doe, DaysToYmd(days), DaysToYmd(days + 1));
  }

  lemma EraFollows(era: int, doe: int, a: Date, b: Date)
    requires 0 <= doe < 146_097 && a == DateOfEra(era, doe)
    requires b == if doe == 146_096 then DateOfEra(era + 1, 0) else DateOfEra(era, doe + 1)
    ensures RealDate(a) && b == NextDay(a)
  {
    if doe == 146_096 {
      LastDayOfEra(era);
    } else {
      DayInsideEra(era, doe);
    }
  }

  /** The date of day `doe` of an era. */
  function DateOfEra(era: int, doe: int): Date { MarchDate(era, YearOfEra(doe), doe) }

  function MarchDate(era: int, y: int, doe: int): Date { FromMarch(y + era * 400, doe - YearStart(y)) }

  lemma DateOfEraIs(days: int, era: int, doe: int)
    requires 0 <= doe < 146_097 && days + 719_468 == 146_097 * era + doe
    ensures DaysToYmd(days) == DateOfEra(era, doe)
  {
    var z := days + 719_468;
    assert z / 146_097 == era && z % 146_097 == doe;
  }

  lemma SameLength(y: int, era: int, year400: int)
    requires year400 == y + era * 400
    ensures YearLength(y) == if Leap(year400 + 1) then 366 else 365
  {
    LeapOfEra(y + 1, era);
    assert y + 1 + 400 * era == year400 + 1;
  }

  lemma NextInYear(doy: int, year400: int, length: int)
    requires length == (if Leap(year400 + 1) then 366 else 365) && 0 <= doy < length
    ensures RealDate(FromMarch(year400, doy))
    ensures doy + 1 < length ==> FromMarch(year400, doy + 1) == NextDay(FromMarch(year400, doy))
    ensures doy + 1 == length ==> FromMarch(year400 + 1, 0) == NextDay(FromMarch(year400, doy))
  {
    if doy + 1 < length {
      NextWithinYear(year400, doy);
    } else {
      NextAcrossYears(year400);
    }
  }

  lemma NextInEra(era: int, y: int, doy: int, y': int, doy': int)
    requires 0 <= y < 400 && 0 <= doy < YearLength(y)
    requires if doy + 1 < YearLength(y) then y' == y && doy' == doy + 1 else y' == y + 1 && doy' == 0
    ensures RealDate(FromMarch(y + era * 400, doy))
    ensures FromMarch(y' + era * 400, doy') == NextDay(FromMarch(y + era * 400, doy))
  {
    SameLength(y, era, y + era * 400);
    NextInYear(doy, y + era * 400, YearLength(y));
    assert y' + era * 400 == if y' == y then y + era * 400 else y + era * 400 + 1;
  }

  // y and y' stand for the years of days doe and doe + 1.
  lemma MarchFollows(era: int, doe: int, y: int, y': int)
    requires 0 <= y < 400 && 0 <= doe - YearStart(y) < YearLength(y)
    requires if doe - YearStart(y) + 1 < YearLength(y) then y' == y else y' == y + 1 && doe + 1 == YearStart(y + 1)
    ensures RealDate(MarchDate(era, y, doe)) && MarchDate(era, y', doe + 1) == NextDay(MarchDate(era, y, doe))
  {
    var doy := doe - YearStart(y);
    var doy' := if y' == y then doy + 1 else 0;
    assert MarchDate(era, y', doe + 1) == FromMarch(y' + era * 400, doy');
    NextInEra(era, y, doy, y', doy');
  }

  lemma DayInsideEra(era: int, doe: int)
    requires 0 <= doe < 146_096
    ensures RealDate(DateOfEra(era, doe)) && DateOfEra(era, doe + 1) == NextDay(DateOfEra(era, doe))
  {
    NextDayOfEra(doe);
    MarchFollows(era, doe, YearOfEra(doe), YearOfEra(doe + 1));
  }

  lemma LastDayOfEra(era: int)
    ensures RealDate(DateOfEra(era, 146_096)) && DateOfEra(era + 1, 0) == NextDay(DateOfEra(era, 146_096))
  {
    assert YearOfEra(146_096) == 399 && YearStart(399) + 365 == 146_096 && YearOfEra(0) == 0;
    LeapOfEra(400, era);
    NextAcrossYears(399 + era * 400);
  }

  predicate I64(n: int) { -0x8000_0000_0000_0000 <= n < 0x8000_0000_0000_0000 }

  lemma MonthWithinYear(doy: int)
    requires 0 <= doy < 366
    ensures var mp := (5 * doy + 2) / 153; 0 <= mp <= 11 && 0 <= doy - (153 * mp + 2) / 5 <= 30
  {
    var mp := (5 * doy + 2) / 153;
    assert mp == 0 || mp == 1 || mp == 2 || mp == 3 || mp == 4 || mp == 5 ||
           mp == 6 || mp == 7 || mp == 8 || mp == 9 || mp == 10 || mp == 11;
  }

  /** Every step of `days_to_ymd` stays in its machine type: in particular none of the unsigned
      subtractions goes below zero. */
  predicate StepsFit(days: int)
  {
    var z := days + 719_468;
    var era, doe := z / 146_097, z % 146_097;
    var yoe := YearOfEra(doe);
    var doy := doe - YearStart(yoe);
    var mp := (5 * doy + 2) / 153;
    && I64(days) && I64(z) && I64(era)
    && 0 <= doe - doe / 1460 && 0 <= doe - doe / 1460 + doe / 36_524 - doe / 146_096
    && 0 <= yoe < 400 && I64(era * 400) && I64(yoe + era * 400) && I64(DaysToYmd(days).year)
    && 0 <= YearStart(yoe) && 0 <= doy < 366
    && 0 <= mp <= 11 && 0 <= doy - (153 * mp + 2) / 5 && 1 <= doy - (153 * mp + 2) / 5 + 1 <= 31
    && (mp >= 10 ==> 1 <= mp - 9 <= 2)
    && 1 <= DaysToYmd(days).month <= 12 && 1 <= DaysToYmd(days).day <= 31
  }

  const LAST_DAY_COUNT := 0x7FFF_FFFF_FFFF_FFFF - 719_468

  lemma EraStepsFit(doe: int, yoe: int, doy: int, mp: int)
    requires 0 <= doe < 146_097 && yoe == YearOfEra(doe) && doy == doe - YearStart(yoe) && mp == (5 * doy + 2) / 153
    ensures 0 <= doe - doe / 1460 && 0 <= doe - doe / 1460 + doe / 36_524 - doe / 146_096
    ensures 0 <= yoe < 400 && 0 <= YearStart(yoe) && 0 <= doy < 366
    ensures 0 <= mp <= 11 && 0 <= doy - (153 * mp + 2) / 5 <= 30
  {
    YearOfEraIs(doe);
    MonthWithinYear(doy);
  }

  lemma YearFits(days: int)
    requires I64(days + 719_468)
    ensures var era, yoe := (days + 719_468) / 146_097, YearOfEra((days + 719_468) % 146_097);
      I64(era) && I64(era * 400) && (0 <= yoe < 400 ==> I64(yoe + era * 400) && I64(DaysToYmd(days).year))
  {
  }

  /** The day counts for which that is so: not every 64-bit count, but all up to 719468 below
      the largest. */
  lemma StepsFitIff(days: int)
    requires I64(days)
    ensures StepsFit(days) <==> days <= LAST_DAY_COUNT
  {
    if days <= LAST_DAY_COUNT {
      var doe := (days + 719_468) % 146_097;
      var yoe := YearOfEra(doe);
      var doy := doe - YearStart(yoe);
      EraStepsFit(doe, yoe, doy, (5 * doy + 2) / 153);
      YearFits(days);
      DaysFollowCalendar(days);
    }
  }

  /** On the largest 64-bit day count the first addition overflows. */
  lemma LargestDayOverflows()
    ensures I64(0x7FFF_FFFF_FFFF_FFFF) && !I64(0x7FFF_FFFF_FFFF_FFFF + 719_468) && !StepsFit(0x7FFF_FFFF_FFFF_FFFF)
  {
    StepsFitIff(0x7FFF_FFFF_FFFF_FFFF);
  }

  /** For every i64 second count no step of the conversion leaves its machine type. */
  lemma NoOverflow(secs: int)
    requires I64(secs)
    ensures StepsFit(secs / 86_400) && 0 <= secs % 86_400 < 86_400
  {
    StepsFitIff(secs / 86_400);
  }

  // ---------- formatted instants ----------

  /** Zero-padded decimal, as `{:0w}` prints it: the sign comes first and counts. */
  function Pad(n: int, w: nat): (t: string)
  {
    if n < 0 then "-" + PadNat(-n, w - 1) else PadNat(n, w)
  }

  function PadNat(n: nat, w: int): (t: string)
  {
    Zeros(w - |NatText(n)|) + NatText(n)
  }

  function Zeros(k: int): string { if k <= 0 then "" else ['0'] + Zeros(k - 1) }

  /** Fields printed to their widths, each followed by its separator. */
  function Joined(fields: seq<int>, widths: seq<nat>, seps: string): (t: string)
    requires |fields| == |widths| == |seps|
  {
    if fields == [] then "" else Pad(fields[0], widths[0]) + ([seps[0]] + Joined(fields[1..], widths[1..], seps[1..]))
  }

  /** The fields of an instant, most significant first. */
  function Fields(secs: int): (f: seq<int>)
    ensures |f| == 6
  {
    FieldsOn(secs / 86_400, secs % 86_400)
  }

  function FieldsOn(day: int, tod: int): (f: seq<int>)
    ensures |f| == 6
  {
    FieldsOf(DaysToYmd(day), tod)
  }

  function FieldsOf(d: Date, tod: int): (f: seq<int>)
    ensures |f| == 6
  {
    [d.year, d.month, d.day, tod / 3600, tod / 60 % 60, tod % 60]
  }

  const WIDTHS: seq<nat> := [4, 2, 2, 2, 2, 2]

  /** `format_iso8601_seconds`: YYYY-MM-DDTHH:MM:SSZ. */
  function FormatIso8601(secs: int): (t: string)
  {
    Joined(Fields(secs), WIDTHS, "--T::Z")
  }

  /** Exactly `w` digits. */
  function Digits(n: nat, w: nat): (t: string)
    ensures |t| == w
  {
    if w == 0 then "" else Digits(n / 10, w - 1) + [DigitChar(n % 10)]
  }

  function Power10(w: nat): nat { if w == 0 then 1 else 10 * Power10(w - 1) }

  // One more digit: q and r stand for n / 10 and n % 10.
  lemma DigitAppended(n: nat, q: nat, r: nat, w: nat)
    requires n >= 10 && q == n / 10 && r == n % 10
    requires PadNat(q, w) == Digits(q, w) && |NatText(q)| <= w
    ensures PadNat(n, w + 1) == Digits(n, w + 1) && |NatText(n)| <= w + 1
  {
    assert NatText(n) == NatText(q) + [DigitChar(r)];
    Assoc(Zeros(w - |NatText(q)|), NatText(q), [DigitChar(r)]);
  }

  lemma {:induction false} NatTextDigits(n: nat, w: nat)
    requires 0 < w && n < Power10(w)
    ensures PadNat(n, w) == Digits(n, w) && |NatText(n)| <= w
  {
    if n < 10 {
      ZeroDigits(w - 1);
      assert NatText(n) == [DigitChar(n)];
    } else {
      NatTextDigits(n / 10, w - 1);
      DigitAppended(n, n / 10, n % 10, w - 1);
    }
  }

  lemma {:induction false} ZeroDigits(w: nat)
    ensures Zeros(w) == Digits(0, w)
  {
    if w > 0 {
      ZeroDigits(w - 1);
      ZerosSnoc(w - 1);
    }
  }

  lemma {:induction false} ZerosSnoc(k: nat)
    ensures ['0'] + Zeros(k) == Zeros(k) + ['0']
  {
    if k > 0 {
      ZerosSnoc(k - 1);
    }
  }

  /** Text order, by code point. */
  ghost predicate Before(s: string, t: string) { KeyLess(ByCodePoint, s, t) }

  lemma BeforeHead(p: string, q: string, s: string, t: string)
    requires |p| == |q| && Before(p, q)
    ensures Before(p + s, q + t)
  {
    assert CodePoints(p + s) == CodePoints(p) + CodePoints(s) && CodePoints(q + t) == CodePoints(q) + CodePoints(t);
    LexHead(CodePoints(p), CodePoints(q), CodePoints(s), CodePoints(t));
  }

  lemma {:induction false} LexHead(p: seq<nat>, q: seq<nat>, x: seq<nat>, y: seq<nat>)
    requires |p| == |q| && LexLess(p, q)
    ensures LexLess(p + x, q + y)
  {
    assert (p + x)[0] == p[0] && (q + y)[0] == q[0];
    if p[0] == q[0] {
      assert (p + x)[1..] == p[1..] + x && (q + y)[1..] == q[1..] + y;
      LexHead(p[1..], q[1..], x, y);
    }
  }

  lemma BeforeTail(p: string, s: string, t: string)
    requires Before(s, t)
    ensures Before(p + s, p + t)
  {
    assert CodePoints(p + s) == CodePoints(p) + CodePoints(s) && CodePoints(p + t) == CodePoints(p) + CodePoints(t);
    LexCommonPrefix(CodePoints(p), CodePoints(s), CodePoints(t));
  }

  lemma {:induction false} DigitsAscend(m: nat, n: nat, w: nat)
    requires m < n < Power10(w)
    ensures Before(Digits(m, w), Digits(n, w))
  {
    if m / 10 < n / 10 {
      DigitsAscend(m / 10, n / 10, w - 1);
      BeforeHead(Digits(m / 10, w - 1), Digits(n / 10, w - 1), [DigitChar(m % 10)], [DigitChar(n % 10)]);
    } else {
      var x, y := [DigitChar(m % 10)], [DigitChar(n % 10)];
      assert CodePoints(x)[0] < CodePoints(y)[0];
      BeforeTail(Digits(m / 10, w - 1), x, y);
    }
  }

  predicate DateBefore(a: Date, b: Date)
  {
    a.year < b.year || (a.year == b.year && (a.month < b.month || (a.month == b.month && a.day < b.day)))
  }

  /** Any numbering of days that follows the calendar from one day to the next. */
  ghost predicate Follows(date: int -> Date, day: int)
  {
    RealDate(date(day)) && date(day + 1) == NextDay(date(day))
  }

  lemma {:induction false} CalendarAscends(date: int -> Date, m: int, n: int)
    requires m < n && forall day :: Follows(date, day)
    ensures DateBefore(date(m), date(n))
    decreases n - m
  {
    assert Follows(date, n - 1);
    if m < n - 1 {
      CalendarAscends(date, m, n - 1);
    }
    NextIsLater(date(m), date(n - 1), date(n));
  }

  lemma DaysFollow(day: int)
    ensures Follows(DaysToYmd, day)
  {
    DaysFollowCalendar(day);
  }

  lemma DatesAscend(m: int, n: int)
    requires m < n
    ensures DateBefore(DaysToYmd(m), DaysToYmd(n))
  {
    forall day ensures Follows(DaysToYmd, day) { DaysFollow(day); }
    CalendarAscends(DaysToYmd, m, n);
  }

  lemma NextIsLater(a: Date, b: Date, c: Date)
    requires (a == b || DateBefore(a, b)) && RealDate(b) && c == NextDay(b)
    ensures DateBefore(a, c)
  {
  }

  /** The first field that differs decides. */
  predicate FieldsLess(f: seq<int>, g: seq<int>)
    requires |f| == |g|
  {
    f != [] && (f[0] < g[0] || (f[0] == g[0] && FieldsLess(f[1..], g[1..])))
  }

  predicate FitsWidths(f: seq<int>, widths: seq<nat>)
  {
    |f| == |widths| && forall i :: 0 <= i < |f| ==> 0 < widths[i] && 0 <= f[i] < Power10(widths[i])
  }

  lemma {:induction false} JoinedAscend(f: seq<int>, g: seq<int>, widths: seq<nat>, seps: string)
    requires FitsWidths(f, widths) && FitsWidths(g, widths) && |seps| == |widths| && FieldsLess(f, g)
    ensures Before(Joined(f, widths, seps), Joined(g, widths, seps))
  {
    var w := widths[0];
    var x := [seps[0]] + Joined(f[1..], widths[1..], seps[1..]);
    var y := [seps[0]] + Joined(g[1..], widths[1..], seps[1..]);
    NatTextDigits(f[0], w);
    NatTextDigits(g[0], w);
    if f[0] < g[0] {
      DigitsAscend(f[0], g[0], w);
      BeforeHead(Digits(f[0], w), Digits(g[0], w), x, y);
    } else {
      JoinedAscend(f[1..], g[1..], widths[1..], seps[1..]);
      BeforeTail([seps[0]], Joined(f[1..], widths[1..], seps[1..]), Joined(g[1..], widths[1..], seps[1..]));
      BeforeTail(Digits(f[0], w), x, y);
    }
  }

  lemma TimesAscend(m: int, n: int)
    requires 0 <= m < n < 86_400
    ensures m / 3600 < n / 3600 || (m / 3600 == n / 3600 &&
      (m / 60 % 60 < n / 60 % 60 || (m / 60 % 60 == n / 60 % 60 && m % 60 < n % 60)))
  {
    var a, b := m / 60, n / 60;
    assert a / 60 == m / 3600 && b / 60 == n / 3600;
  }

  lemma LaterFields(a: Date, b: Date, m: int, n: int)
    requires DateBefore(a, b) || (a == b && 0 <= m < n < 86_400)
    ensures FieldsLess(FieldsOf(a, m), FieldsOf(b, n))
  {
    if a == b {
      TimesAscend(m, n);
    }
    SixFields(FieldsOf(a, m), FieldsOf(b, n));
  }

  lemma FieldsOnAscend(d: int, e: int, m: int, n: int)
    requires d < e || (d == e && 0 <= m < n < 86_400)
    ensures FieldsLess(FieldsOn(d, m), FieldsOn(e, n))
  {
    if d < e {
      DatesAscend(d, e);
    }
    LaterFields(DaysToYmd(d), DaysToYmd(e), m, n);
  }

  lemma FieldsAscend(s: int, t: int)
    requires s < t
    ensures FieldsLess(Fields(s), Fields(t))
  {
    FieldsOnAscend(s / 86_400, t / 86_400, s % 86_400, t % 86_400);
  }

  lemma SixFields(f: seq<int>, g: seq<int>)
    requires |f| == |g| == 6
    requires f[0] < g[0] || (f[0] == g[0] && (f[1] < g[1] || (f[1] == g[1] && (f[2] < g[2] || (f[2] == g[2] &&
      (f[3] < g[3] || (f[3] == g[3] && (f[4] < g[4] || (f[4] == g[4] && f[5] < g[5])))))))))
    ensures FieldsLess(f, g)
  {
    var f1, g1 := f[1..], g[1..];
    var f2, g2 := f1[1..], g1[1..];
    var f3, g3 := f2[1..], g2[1..];
    var f4, g4 := f3[1..], g3[1..];
    var f5, g5 := f4[1..], g4[1..];
    assert FieldsLess(f5, g5) <==> f[5] < g[5];
    assert FieldsLess(f4, g4) <==> f[4] < g[4] || (f[4] == g[4] && f[5] < g[5]);
    assert FieldsLess(f2, g2) <==> f[2] < g[2] || (f[2] == g[2] && (f[3] < g[3] || (f[3] == g[3] && FieldsLess(f4, g4))));
  }

  /** Years 0 to 9999, in seconds. */
  predicate FourDigitYear(secs: int) { -62_167_219_200 <= secs < 253_402_300_800 }

  // The last day of a year and the first of the next, 305 and 306 days after the first of March.
  lemma TurnOfYear(y: int)
    ensures FromMarch(y, 305) == Date(y, 12, 31) && FromMarch(y, 306) == Date(y + 1, 1, 1)
  {
  }

  lemma TurnOfCentury()
    ensures YearOfEra(146_036) == 399 && YearOfEra(146_037) == 399 && YearStart(399) == 145_731
  {
  }

  lemma TurnOfEra(days: int, era: int)
    requires days + 719_468 == 146_097 * era + 146_036
    ensures DaysToYmd(days) == Date(399 + era * 400, 12, 31) && DaysToYmd(days + 1) == Date(400 + era * 400, 1, 1)
  {
    DateOfEraIs(days, era, 146_036);
    DateOfEraIs(days + 1, era, 146_037);
    TurnOfCentury();
    TurnOfYear(399 + era * 400);
  }

  lemma YearsAscend(m: int, n: int)
    requires m <= n
    ensures DaysToYmd(m).year <= DaysToYmd(n).year
  {
    if m < n {
      DatesAscend(m, n);
    }
  }

  lemma YearsUpTo(days: int, era: int, last: int)
    requires last + 719_468 == 146_097 * era + 146_036
    ensures days <= last <==> DaysToYmd(days).year < 400 * era + 400
  {
    TurnOfEra(last, era);
    if days <= last {
      YearsAscend(days, last);
    } else {
      YearsAscend(last + 1, days);
    }
  }

  lemma FourDigitYearIff(secs: int)
    ensures FourDigitYear(secs) <==> 0 <= DaysToYmd(secs / 86_400).year <= 9999
  {
    YearsUpTo(secs / 86_400, -1, -719_529);
    YearsUpTo(secs / 86_400, 24, 2_932_896);
  }

  lemma DateFits(d: Date, tod: int)
    requires RealDate(d) && 0 <= d.year <= 9999 && 0 <= tod < 86_400
    ensures FitsWidths(FieldsOf(d, tod), WIDTHS)
  {
    assert Power10(2) == 100 && Power10(4) == 10_000;
  }

  lemma FieldsFit(secs: int)
    requires FourDigitYear(secs)
    ensures FitsWidths(Fields(secs), WIDTHS)
  {
    FourDigitYearIff(secs);
    DaysFollowCalendar(secs / 86_400);
    DateFits(DaysToYmd(secs / 86_400), secs % 86_400);
  }

  /** For years 0 to 9999 the printed instants sort, by code point, exactly as the instants do. */
  lemma StampsSortAsInstants(s: int, t: int)
    requires FourDigitYear(s) && FourDigitYear(t)
    ensures Before(FormatIso8601(s), FormatIso8601(t)) <==> s < t
  {
    FieldsFit(s);
    FieldsFit(t);
    KeyOrderTotal(ByCodePoint, FormatIso8601(s), FormatIso8601(t));
    if s < t {
      FieldsAscend(s, t);
      JoinedAscend(Fields(s), Fields(t), WIDTHS, "--T::Z");
    } else if t < s {
      FieldsAscend(t, s);
      JoinedAscend(Fields(t), Fields(s), WIDTHS, "--T::Z");
    }
  }

  // ---------- what a printed instant reads ----------

  lemma {:induction false} LeadingZero(t: string)
    requires AllDigits(t)
    ensures AllDigits(['0'] + t) && NatValue(['0'] + t) == NatValue(t)
  {
    var z := ['0'] + t;
    if t == "" {
      assert z[..0] == "";
    } else {
      LeadingZero(t[..|t| - 1]);
      assert z[..|z| - 1] == ['0'] + t[..|t| - 1];
    }
  }

  lemma {:induction false} LeadingZeros(k: int, t: string)
    requires AllDigits(t)
    ensures AllDigits(Zeros(k) + t) && NatValue(Zeros(k) + t) == NatValue(t)
    ensures |Zeros(k)| == if k <= 0 then 0 else k
  {
    if k > 0 {
      LeadingZeros(k - 1, t);
      LeadingZero(Zeros(k - 1) + t);
      Assoc(['0'], Zeros(k - 1), t);
    } else {
      assert Zeros(k) + t == t;
    }
  }

  /** The text is digits, at least `w` of them, that spell the number. */
  predicate Spells(t: string, n: int, w: int) { AllDigits(t) && NatValue(t) == n && |t| >= w }

  lemma PadNatSpells(n: nat, w: int)
    ensures Spells(PadNat(n, w), n, w)
  {
    NatValueText(n);
    LeadingZeros(w - |NatText(n)|, NatText(n));
  }

  lemma FieldSpells(n: nat, w: nat)
    requires 0 < w && n < Power10(w)
    ensures Spells(Pad(n, w), n, w) && |Pad(n, w)| == w
  {
    PadNatSpells(n, w);
    NatTextDigits(n, w);
  }

  /** The text from position `i` on: `w` digits that spell the number, then the separator. */
  predicate FieldAt(t: string, i: nat, w: nat, n: int, sep: char)
  {
    i + w < |t| && Spells(t[i..i + w], n, w) && t[i + w] == sep
  }

  lemma TwoSpells(n: nat)
    requires n < 100
    ensures Spells(Pad(n, 2), n, 2) && |Pad(n, 2)| == 2
  {
    assert Power10(2) == 100;
    FieldSpells(n, 2);
  }

  lemma JoinedHead(n: int, w: nat, sep: char, f: seq<int>, widths: seq<nat>, seps: string)
    requires |f| == |widths| == |seps|
    ensures Joined([n] + f, [w] + widths, [sep] + seps) == Pad(n, w) + ([sep] + Joined(f, widths, seps))
  {
    assert ([n] + f)[1..] == f && ([w] + widths)[1..] == widths && ([sep] + seps)[1..] == seps;
  }

  /** The year as printed: at least four characters, a minus sign counting as one. */
  predicate YearText(t: string, year: int)
  {
    if year < 0 then t != "" && t[0] == '-' && Spells(t[1..], -year, 3) else Spells(t, year, 4)
  }

  lemma YearSpells(year: int)
    ensures YearText(Pad(year, 4), year)
  {
    if year < 0 {
      PadNatSpells(-year, 3);
    } else {
      PadNatSpells(year, 4);
    }
  }

  /** Hours, minutes and seconds, read from position `i` on, add up to the second of the day. */
  ghost predicate TimeText(u: string, i: nat, tod: int)
  {
    exists h, m, s ::
      Clocked(u, i, h, m, s) && 0 <= m < 60 && 0 <= s < 60 && 3600 * h + 60 * m + s == tod
  }

  predicate Clocked(u: string, i: nat, h: int, m: int, s: int)
  {
    FieldAt(u, i, 2, h, ':') && FieldAt(u, i + 3, 2, m, ':') && FieldAt(u, i + 6, 2, s, 'Z')
  }

  /** A two-digit field with its separator, and what follows. */
  lemma FieldBefore(n: nat, sep: char, tail: string, u: string)
    requires n < 100 && u == Pad(n, 2) + ([sep] + tail)
    ensures |u| == 3 + |tail| && FieldAt(u, 0, 2, n, sep) && u[3..] == tail
  {
    TwoSpells(n);
    assert u[0..2] == Pad(n, 2);
  }

  lemma FieldLater(u: string, i: nat, n: int, sep: char)
    requires |u| >= 3 && FieldAt(u[3..], i, 2, n, sep)
    ensures FieldAt(u, i + 3, 2, n, sep)
  {
    assert u[3..][i..i + 2] == u[i + 3..i + 5];
  }

  lemma ClockLater(u: string, i: nat, h: int, m: int, s: int)
    requires |u| >= 3 && Clocked(u[3..], i, h, m, s)
    ensures Clocked(u, i + 3, h, m, s)
  {
    FieldLater(u, i, h, ':');
    FieldLater(u, i + 3, m, ':');
    FieldLater(u, i + 6, s, 'Z');
  }

  lemma ClockAssembled(u: string, h: int, m: int, s: int)
    requires |u| == 9 && FieldAt(u, 0, 2, h, ':') && FieldAt(u[3..], 0, 2, m, ':') && FieldAt(u[3..][3..], 0, 2, s, 'Z')
    ensures Clocked(u, 0, h, m, s)
  {
    FieldLater(u[3..], 0, s, 'Z');
    FieldLater(u, 3, s, 'Z');
    FieldLater(u, 0, m, ':');
  }

  lemma ClockTail(h: nat, m: nat, s: nat, u: string)
    requires h < 100 && m < 100 && s < 100 && u == Joined([h, m, s], [2, 2, 2], "::Z")
    ensures |u| == 9 && Clocked(u, 0, h, m, s)
  {
    var u2 := Pad(s, 2) + (['Z'] + "");
    var u1 := Pad(m, 2) + ([':'] + u2);
    JoinedThree(h, m, s);
    FieldBefore(s, 'Z', "", u2);
    FieldBefore(m, ':', u2, u1);
    FieldBefore(h, ':', u1, u);
    ClockAssembled(u, h, m, s);
  }

  lemma TailAssembled(u: string, month: int, day: int, h: int, m: int, s: int)
    requires |u| == 15 && FieldAt(u, 0, 2, month, '-') && FieldAt(u[3..], 0, 2, day, 'T') && Clocked(u[3..][3..], 0, h, m, s)
    ensures FieldAt(u, 0, 2, month, '-') && FieldAt(u, 3, 2, day, 'T') && Clocked(u, 6, h, m, s)
  {
    FieldLater(u, 0, day, 'T');
    ClockLater(u[3..], 0, h, m, s);
    ClockLater(u, 3, h, m, s);
  }

  // What follows the year, field by field.
  lemma TailFields(month: nat, day: nat, h: nat, m: nat, s: nat, u: string)
    requires month < 100 && day < 100 && h < 100 && m < 100 && s < 100
    requires u == Joined([month, day, h, m, s], [2, 2, 2, 2, 2], "-T::Z")
    ensures |u| == 15 && FieldAt(u, 0, 2, month, '-') && FieldAt(u, 3, 2, day, 'T') && Clocked(u, 6, h, m, s)
  {
    var clock := Joined([h, m, s], [2, 2, 2], "::Z");
    var u1 := Pad(day, 2) + (['T'] + clock);
    JoinedFive(month, day, h, m, s);
    ClockTail(h, m, s, clock);
    FieldBefore(day, 'T', clock, u1);
    FieldBefore(month, '-', u1, u);
    TailAssembled(u, month, day, h, m, s);
  }

  lemma JoinedThree(h: int, m: int, s: int)
    ensures Joined([h, m, s], [2, 2, 2], "::Z") == Pad(h, 2) + ([':'] + (Pad(m, 2) + ([':'] + (Pad(s, 2) + (['Z'] + "")))))
  {
    JoinedHead(s, 2, 'Z', [], [], "");
    JoinedHead(m, 2, ':', [s], [2], "Z");
    JoinedHead(h, 2, ':', [m, s], [2, 2], ":Z");
    assert [s] + [] == [s] && [m] + [s] == [m, s] && [h] + [m, s] == [h, m, s];
    assert [2 as nat] + [] == [2] && [2 as nat] + [2] == [2, 2] && [2 as nat] + [2, 2] == [2, 2, 2];
    assert ['Z'] + "" == "Z" && [':'] + "Z" == ":Z" && [':'] + ":Z" == "::Z";
  }

  lemma JoinedFive(month: int, day: int, h: int, m: int, s: int)
    ensures Joined([month, day, h, m, s], [2, 2, 2, 2, 2], "-T::Z") ==
      Pad(month, 2) + (['-'] + (Pad(day, 2) + (['T'] + Joined([h, m, s], [2, 2, 2], "::Z"))))
  {
    JoinedHead(day, 2, 'T', [h, m, s], [2, 2, 2], "::Z");
    JoinedHead(month, 2, '-', [day, h, m, s], [2, 2, 2, 2], "T::Z");
    assert [day] + [h, m, s] == [day, h, m, s] && [month] + [day, h, m, s] == [month, day, h, m, s];
    assert [2 as nat] + [2, 2, 2] == [2, 2, 2, 2] && [2 as nat] + [2, 2, 2, 2] == [2, 2, 2, 2, 2];
    assert ['T'] + "::Z" == "T::Z" && ['-'] + "T::Z" == "-T::Z";
  }

  lemma TimeAdds(tod: int)
    requires 0 <= tod < 86_400
    ensures 0 <= tod / 3600 < 24 && 3600 * (tod / 3600) + 60 * (tod / 60 % 60) + tod % 60 == tod
  {
  }

  lemma TailReads(d: Date, tod: int, u: string)
    requires RealDate(d) && 0 <= tod < 86_400
    requires u == Joined([d.month, d.day, tod / 3600, tod / 60 % 60, tod % 60], [2, 2, 2, 2, 2], "-T::Z")
    ensures |u| == 15 && FieldAt(u, 0, 2, d.month, '-') && FieldAt(u, 3, 2, d.day, 'T') && TimeText(u, 6, tod)
  {
    TimeAdds(tod);
    TailFields(d.month, d.day, tod / 3600, tod / 60 % 60, tod % 60, u);
    assert Clocked(u, 6, tod / 3600, tod / 60 % 60, tod % 60);
  }

  lemma StampSplits(d: Date, tod: int)
    ensures Joined(FieldsOf(d, tod), WIDTHS, "--T::Z") == Pad(d.year, 4) +
      (['-'] + Joined([d.month, d.day, tod / 3600, tod / 60 % 60, tod % 60], [2, 2, 2, 2, 2], "-T::Z"))
  {
    assert FieldsOf(d, tod)[1..] == [d.month, d.day, tod / 3600, tod / 60 % 60, tod % 60];
    assert WIDTHS[1..] == [2, 2, 2, 2, 2] && "--T::Z"[1..] == "-T::Z";
  }

  lemma SplitAt(t: string, head: string, u: string)
    requires t == head + (['-'] + u)
    ensures var n := |t| - |u|; t[..n - 1] == head && t[n - 1] == '-' && t[n..] == u
  {
  }

  /** Every printed instant: the year, then `-MM-DDTHH:MM:SSZ`, where year, month and day are those
      of the calendar day and the time is the second of that day. */
  lemma StampReads(secs: int)
    ensures var t, d := FormatIso8601(secs), DaysToYmd(secs / 86_400);
      && |t| >= 20 && YearText(t[..|t| - 16], d.year) && t[|t| - 16] == '-'
      && var u := t[|t| - 15..];
         FieldAt(u, 0, 2, d.month, '-') && FieldAt(u, 3, 2, d.day, 'T') && TimeText(u, 6, secs % 86_400)
  {
    var t, d, tod := FormatIso8601(secs), DaysToYmd(secs / 86_400), secs % 86_400;
    var u := Joined([d.month, d.day, tod / 3600, tod / 60 % 60, tod % 60], [2, 2, 2, 2, 2], "-T::Z");
    DaysFollowCalendar(secs / 86_400);
    StampSplits(d, tod);
    SplitAt(t, Pad(d.year, 4), u);
    YearSpells(d.year);
    TailReads(d, tod, u);
  }
}
