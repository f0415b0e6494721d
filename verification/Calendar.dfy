/** Calendar arithmetic of the webhook payload: Howard Hinnant's closed form for
    turning a day count into a civil date, set against a calendar that advances
    one day at a time. */
module Calendar {

  datatype Date = Date(year: int, month: int, day: int)

  const EPOCH := Date(1970, 1, 1)

  // ----- The reference calendar: leap rule, month lengths, the next day -----

  predicate IsLeap(year: int) {
    year % 4 == 0 && (year % 100 != 0 || year % 400 == 0)
  }

  function DaysInMonth(year: int, month: int): int {
    if month == 2 then (if IsLeap(year) then 29 else 28)
    else if month == 4 || month == 6 || month == 9 || month == 11 then 30
    else 31
  }

  predicate ValidDate(d: Date) {
    1 <= d.month <= 12 && 1 <= d.day <= DaysInMonth(d.year, d.month)
  }

  function NextDay(d: Date): Date {
    if d.day < DaysInMonth(d.year, d.month) then Date(d.year, d.month, d.day + 1)
    else if d.month < 12 then Date(d.year, d.month + 1, 1)
    else Date(d.year + 1, 1, 1)
  }

  /** The date `n` days after `d`, counted one day at a time. */
  function After(d: Date, n: nat): Date {
    if n == 0 then d else NextDay(After(d, n - 1))
  }

  predicate DateLess(a: Date, b: Date) {
    || a.year < b.year
    || (a.year == b.year && a.month < b.month)
    || (a.year == b.year && a.month == b.month && a.day < b.day)
  }

  // ----- The closed form -----

  function DayOfEra(days: int): int { (days + 719_468) % 146_097 }

  function YearOfEra(doe: int): int {
    (doe - doe / 1460 + doe / 36524 - doe / 146096) / 365
  }

  /** Days of the era before its March-based year `yoe`. */
  function YearStart(yoe: int): int { 365 * yoe + yoe / 4 - yoe / 100 }

  /** Days of a March-based year before its month `mp`. */
  function MonthStart(mp: int): int { (153 * mp + 2) / 5 }

  function MonthOf(doy: int): int { (5 * doy + 2) / 153 }

  /** A day in years that begin on the first of March: the 400-year era, the year of
      the era, the month of that year (0 is March) and the day of the month. */
  datatype March = March(era: int, yoe: int, mp: int, day: int)

  function MarchOf(days: int): March {
    var doe := DayOfEra(days);
    var yoe := YearOfEra(doe);
    var doy := doe - YearStart(yoe);
    var mp := MonthOf(doy);
    March((days + 719_468) / 146_097, yoe, mp, doy - MonthStart(mp) + 1)
  }

  function DateOf(m: March): Date {
    var month := if m.mp < 10 then m.mp + 3 else m.mp - 9;
    var year := m.yoe + m.era * 400;
    Date(if month <= 2 then year + 1 else year, month, m.day)
  }

  function CivilFromDays(days: int): Date { DateOf(MarchOf(days)) }

  /** Length of the March-based year `yoe`: its February belongs to `yoe + 1`. */
  function YearLength(yoe: int): int {
    if IsLeap(yoe + 1) then 366 else 365
  }

  lemma CyclesOf1460(c: int, q: int, t: int)
    requires 0 <= c <= 3 && 0 <= q <= 24 && 0 <= t <= 1460
    ensures (36524 * c + 1461 * q + t) / 1460
         == 25 * c + q + (if 24 * c + q + t >= 1460 then 1 else 0)
  {
  }

  /** Whole centuries; the last day of the era would be a fifth one. */
  lemma Centuries(c: int, u: int)
    requires 0 <= c <= 3 && 0 <= u && (u < 36524 || (c == 3 && u == 36524))
    ensures (36524 * c + u) / 36524 - (36524 * c + u) / 146096 == c
  {
  }

  /** A day of the era as centuries, four-year cycles, years and days. */
  lemma YearOfEraSplit(doe: int, c: int, q: int, y: int, s: int)
    requires 0 <= c <= 3 && 0 <= q <= 24 && 0 <= y <= 3 && 0 <= s
    requires s <= 364 || (s == 365 && y == 3 && (q < 24 || c == 3))
    requires doe == 36524 * c + 1461 * q + 365 * y + s
    ensures YearOfEra(doe) == 100 * c + 4 * q + y
    ensures YearStart(YearOfEra(doe)) == doe - s
  {
    CyclesOf1460(c, q, 365 * y + s);
    Centuries(c, 1461 * q + 365 * y + s);
    assert (100 * c + 4 * q + y) / 100 == c;
  }

  lemma YearOfEraRange(doe: int)
    requires 0 <= doe <= 146_096
    ensures 0 <= YearOfEra(doe) <= 399
    ensures 0 <= doe - YearStart(YearOfEra(doe)) < YearLength(YearOfEra(doe))
  {
    var c := if doe == 146_096 then 3 else doe / 36524;
    var u := doe - 36524 * c;
    var q := u / 1461;
    var t := u - 1461 * q;
    var y := if t == 1460 then 3 else t / 365;
    YearOfEraSplit(doe, c, q, y, t - 365 * y);
  }

  lemma YearLengths(yoe: int)
    ensures 365 <= YearLength(yoe) <= 366
  {
  }

  lemma MonthRange(doy: int)
    requires 0 <= doy <= 365
    ensures 0 <= MonthOf(doy) <= 11
    ensures MonthStart(MonthOf(doy)) <= doy
    ensures MonthOf(doy) < 11 ==> doy < MonthStart(MonthOf(doy) + 1)
  {
  }

  // ----- The inverse -----

  predicate ValidMarch(m: March) {
    && 0 <= m.yoe <= 399 && 0 <= m.mp <= 11 && 1 <= m.day
    && (m.mp < 11 ==> MonthStart(m.mp) + m.day - 1 < MonthStart(m.mp + 1))
    && MonthStart(m.mp) + m.day - 1 < YearLength(m.yoe)
  }

  function MarchDays(m: March): int {
    m.era * 146_097 + YearStart(m.yoe) + MonthStart(m.mp) + m.day - 1 - 719_468
  }

  function MarchOfDate(d: Date): March {
    var y := if d.month <= 2 then d.year - 1 else d.year;
    March(y / 400, y % 400, if d.month > 2 then d.month - 3 else d.month + 9, d.day)
  }

  /** The day count of a civil date: the inverse of `CivilFromDays`. */
  function DaysFromCivil(d: Date): int { MarchDays(MarchOfDate(d)) }

  lemma YearOfEraInverse(yoe: int, doy: int)
    requires 0 <= yoe <= 399 && 0 <= doy < YearLength(yoe)
    ensures 0 <= YearStart(yoe) + doy <= 146_096
    ensures YearOfEra(YearStart(yoe) + doy) == yoe
  {
    var c := yoe / 100;
    var q := (yoe - 100 * c) / 4;
    var y := yoe - 100 * c - 4 * q;
    assert yoe / 4 == 25 * c + q;
    YearOfEraSplit(YearStart(yoe) + doy, c, q, y, doy);
  }

  lemma MonthInverse(mp: int, day: int)
    requires 0 <= mp <= 11 && 1 <= day
    requires mp < 11 ==> MonthStart(mp) + day - 1 < MonthStart(mp + 1)
    requires mp == 11 ==> day <= 29
    ensures MonthOf(MonthStart(mp) + day - 1) == mp
  {
  }

  lemma EraUnique(era: int, doe: int)
    requires 0 <= doe <= 146_096
    ensures (era * 146_097 + doe) / 146_097 == era
    ensures (era * 146_097 + doe) % 146_097 == doe
  {
  }

  lemma MarchOfDaysIsValid(days: int)
    ensures ValidMarch(MarchOf(days)) && MarchDays(MarchOf(days)) == days
  {
    hide YearOfEra, YearStart, YearLength, MonthOf, MonthStart;
    var doe := DayOfEra(days);
    YearOfEraRange(doe);
    YearLengths(YearOfEra(doe));
    MonthRange(doe - YearStart(YearOfEra(doe)));
  }

  lemma MarchDaysInverse(m: March)
    requires ValidMarch(m)
    ensures MarchOf(MarchDays(m)) == m
  {
    hide YearOfEra, MonthOf;
    var doy := MonthStart(m.mp) + m.day - 1;
    YearOfEraInverse(m.yoe, doy);
    MonthInverse(m.mp, m.day);
    EraUnique(m.era, YearStart(m.yoe) + doy);
  }

  lemma Mod4(k: int, y: int)
    ensures (y + 4 * k) % 4 == y % 4
  {
  }

  lemma Mod100(k: int, y: int)
    ensures (y + 100 * k) % 100 == y % 100
  {
  }

  lemma Mod400(k: int, y: int)
    ensures (y + 400 * k) % 400 == y % 400
  {
  }

  lemma LeapIsPeriodic(era: int, y: int)
    ensures IsLeap(y + era * 400) == IsLeap(y)
  {
    Mod4(100 * era, y);
    Mod100(4 * era, y);
    Mod400(era, y);
  }

  lemma DateOfMarch(m: March)
    requires ValidMarch(m)
    ensures ValidDate(DateOf(m)) && MarchOfDate(DateOf(m)) == m
  {
    LeapIsPeriodic(m.era, m.yoe + 1);
    var y := m.yoe + m.era * 400;
    assert y / 400 == m.era && y % 400 == m.yoe;
  }

  lemma MarchOfValidDate(d: Date)
    requires ValidDate(d)
    ensures ValidMarch(MarchOfDate(d)) && DateOf(MarchOfDate(d)) == d
  {
    var m := MarchOfDate(d);
    LeapIsPeriodic(m.era, m.yoe + 1);
  }

  /** Day counts to dates and back: every day count has a valid date of its own. */
  lemma DayRoundTrip(days: int)
    ensures ValidDate(CivilFromDays(days))
    ensures DaysFromCivil(CivilFromDays(days)) == days
  {
    MarchOfDaysIsValid(days);
    DateOfMarch(MarchOf(days));
  }

  /** Dates to day counts and back: every valid date is the date of some day. */
  lemma DateRoundTrip(d: Date)
    requires ValidDate(d)
    ensures CivilFromDays(DaysFromCivil(d)) == d
  {
    MarchOfValidDate(d);
    MarchDaysInverse(MarchOfDate(d));
  }

  // ----- The closed form against the one-day-at-a-time calendar -----

  function NextMarch(m: March): March {
    if MonthStart(m.mp) + m.day == YearLength(m.yoe) then
      (if m.yoe == 399 then March(m.era + 1, 0, 0, 1) else March(m.era, m.yoe + 1, 0, 1))
    else if m.mp < 11 && MonthStart(m.mp) + m.day == MonthStart(m.mp + 1) then
      March(m.era, m.yoe, m.mp + 1, 1)
    else
      March(m.era, m.yoe, m.mp, m.day + 1)
  }

  lemma DivStep4(y: int)
    ensures (y + 1) / 4 == y / 4 + (if (y + 1) % 4 == 0 then 1 else 0)
  {
  }

  lemma DivStep100(y: int)
    ensures (y + 1) / 100 == y / 100 + (if (y + 1) % 100 == 0 then 1 else 0)
    ensures (y + 1) % 100 == 0 ==> (y + 1) % 4 == 0
  {
    if (y + 1) % 100 == 0 {
      assert y + 1 == 4 * (25 * ((y + 1) / 100));
    }
  }

  lemma Leap400(y: int)
    requires 0 <= y <= 399
    ensures (y + 1) % 400 == 0 <==> y == 399
  {
  }

  lemma YearStartSteps(yoe: int)
    requires 0 <= yoe <= 399
    ensures YearStart(0) == 0 && 365 <= YearLength(yoe) <= 366
    ensures yoe < 399 ==> YearStart(yoe + 1) == YearStart(yoe) + YearLength(yoe)
    ensures yoe == 399 ==> YearStart(yoe) + YearLength(yoe) == 146_097
  {
    DivStep4(yoe);
    DivStep100(yoe);
    Leap400(yoe);
  }

  lemma MonthStartSteps(mp: int)
    requires 0 <= mp <= 10
    ensures MonthStart(0) == 0 && MonthStart(mp) < MonthStart(mp + 1) <= 337
    ensures mp < 10 ==> MonthStart(mp + 1) < MonthStart(mp + 2)
  {
  }

  lemma NextMarchIsOneMore(m: March)
    requires ValidMarch(m)
    ensures ValidMarch(NextMarch(m)) && MarchDays(NextMarch(m)) == MarchDays(m) + 1
  {
    hide MonthStart, YearStart, YearLength;
    YearStartSteps(m.yoe);
    YearStartSteps(0);
    if m.yoe < 399 { YearStartSteps(m.yoe + 1); }
    if m.mp < 11 { MonthStartSteps(m.mp); }
    MonthStartSteps(0);
  }

  lemma NextMarchIsNextDay(m: March)
    requires ValidMarch(m)
    ensures DateOf(NextMarch(m)) == NextDay(DateOf(m))
  {
    LeapIsPeriodic(m.era, m.yoe + 1);
  }

  /** The closed form steps exactly as the calendar does. */
  lemma CivilStepsByOneDay(days: int)
    ensures CivilFromDays(days + 1) == NextDay(CivilFromDays(days))
  {
    var m := MarchOf(days);
    MarchOfDaysIsValid(days);
    NextMarchIsOneMore(m);
    NextMarchIsNextDay(m);
    MarchDaysInverse(NextMarch(m));
  }

  lemma EpochIsDayZero()
    ensures CivilFromDays(0) == EPOCH
  {
    assert DayOfEra(0) == 135_080;
    YearOfEraSplit(135_080, 3, 17, 1, 306);
    assert MonthOf(306) == 10;
  }

  /** Run forwards from the epoch, the closed form is the calendar itself. */
  lemma {:induction false} FutureIsTheCalendar(n: nat)
    ensures CivilFromDays(n) == After(EPOCH, n)
  {
    hide CivilFromDays;
    EpochIsDayZero();
    if n > 0 {
      FutureIsTheCalendar(n - 1);
      CivilStepsByOneDay(n - 1);
    }
  }

  /** Before the epoch it is the date from which the calendar reaches the epoch. */
  lemma {:induction false} PastIsTheCalendar(n: nat)
    ensures After(CivilFromDays(0 - n), n) == EPOCH
  {
    hide CivilFromDays;
    EpochIsDayZero();
    if n > 0 {
      PastIsTheCalendar(n - 1);
      CivilStepsByOneDay(0 - n);
      AfterShift(CivilFromDays(0 - n), n - 1);
    }
  }

  lemma {:induction false} AfterShift(d: Date, n: nat)
    ensures After(d, n + 1) == After(NextDay(d), n)
  {
    if n > 0 { AfterShift(d, n - 1); }
  }

  lemma NextDayIsLater(d: Date)
    requires ValidDate(d)
    ensures DateLess(d, NextDay(d))
  {
  }

  /** Later days have later dates. */
  lemma {:induction false} CivilIsIncreasing(a: int, b: int)
    requires a < b
    ensures DateLess(CivilFromDays(a), CivilFromDays(b))
    decreases b - a
  {
    hide CivilFromDays;
    CivilStepsByOneDay(b - 1);
    DayRoundTrip(b - 1);
    NextDayIsLater(CivilFromDays(b - 1));
    if a < b - 1 {
      CivilIsIncreasing(a, b - 1);
    }
  }

  /** Every bound the source notes beside the closed form. */
  lemma ClosedFormBounds(days: int)
    ensures 0 <= DayOfEra(days) <= 146_096
    ensures 0 <= YearOfEra(DayOfEra(days)) <= 399
    ensures 0 <= DayOfEra(days) - YearStart(YearOfEra(DayOfEra(days))) <= 365
    ensures 0 <= MarchOf(days).mp <= 11
    ensures 1 <= CivilFromDays(days).month <= 12 && 1 <= CivilFromDays(days).day <= 31
  {
    YearOfEraRange(DayOfEra(days));
    MonthRange(DayOfEra(days) - YearStart(YearOfEra(DayOfEra(days))));
    DayRoundTrip(days);
  }
}
