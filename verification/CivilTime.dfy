/**
  Canonical UTC times (probes/enforcement/common/src/time.rs): Hinnant's civil-calendar
  arithmetic and the twenty-character text YYYY-MM-DDThh:mm:ssZ.
 */
module CivilTime {
  import opened Prelude
  import opened Digits
  import opened CanonicalJson

  datatype Date = Date(year: int, month: int, day: int)

  predicate Leap(year: int) {
    year % 4 == 0 && (year % 100 != 0 || year % 400 == 0)
  }

  function DaysInMonth(year: int, month: int): int {
    if month == 2 then (if Leap(year) then 29 else 28)
    else if month in {4, 6, 9, 11} then 30
    else 31
  }

  predicate Valid(d: Date) {
    1 <= d.month <= 12 && 1 <= d.day <= DaysInMonth(d.year, d.month)
  }

  function DaysFromCivil(d: Date): int {
    var y := if d.month <= 2 then d.year - 1 else d.year;
    var era := y / 400;
    var yoe := y - era * 400;
    var mp := (d.month + 9) % 12;
    MarchDays(era, yoe, DayOfYear(mp, d.day))
  }

  /** Day number of day `doy` of the March-based year `yoe` of the 400-year era `era`. */
  function MarchDays(era: int, yoe: int, doy: int): int {
    era * 146097 + DayOfEra(yoe, doy) - 719468
  }

  function DayOfEra(yoe: int, doy: int): int {
    yoe * 365 + yoe / 4 - yoe / 100 + doy
  }

  function DayOfYear(mp: int, day: int): int {
    (153 * mp + 2) / 5 + day - 1
  }

  function CivilFromDays(days: int): Date {
    var z := days + 719468;
    var era := z / 146097;
    CivilOfEra(era, z - era * 146097)
  }

  function CivilOfEra(era: int, doe: int): Date {
    var yoe := YearOfEra(doe);
    CivilOfYear(era, yoe, doe - DayOfEra(yoe, 0))
  }

  function CivilOfYear(era: int, yoe: int, doy: int): Date {
    var mp := (5 * doy + 2) / 153;
    FromMarch(era, yoe, mp, doy - (153 * mp + 2) / 5 + 1)
  }

  /** The date that is day `day` of month `mp` (0 is March) of year `yoe` of era `era`. */
  function FromMarch(era: int, yoe: int, mp: int, day: int): Date {
    var month := if mp < 10 then mp + 3 else mp - 9;
    Date(if month <= 2 then yoe + era * 400 + 1 else yoe + era * 400, month, day)
  }

  function YearOfEra(doe: int): int {
    (doe - doe / 1460 + doe / 36524 - doe / 146096) / 365
  }

  // ---------------------------------------------------------------- March-based coordinates

  lemma {:induction false} Coordinates(d: Date) returns (era: int, yoe: int, mp: int)
    requires 1 <= d.month <= 12
    ensures 0 <= yoe < 400 && 0 <= mp <= 11 && d == FromMarch(era, yoe, mp, d.day)
    ensures DaysFromCivil(d) == MarchDays(era, yoe, DayOfYear(mp, d.day))
  {
    var y := if d.month <= 2 then d.year - 1 else d.year;
    era := y / 400;
    yoe := y - era * 400;
    mp := (d.month + 9) % 12;
  }

  lemma {:induction false} EraUnique(era: int, yoe: int)
    requires 0 <= yoe < 400
    ensures (era * 400 + yoe) / 400 == era
  {
  }

  lemma {:induction false} DaysOfMarch(era: int, yoe: int, mp: int, day: int)
    requires 0 <= yoe < 400 && 0 <= mp <= 11
    ensures DaysFromCivil(FromMarch(era, yoe, mp, day)) == MarchDays(era, yoe, DayOfYear(mp, day))
  {
    EraUnique(era, yoe);
    var d := FromMarch(era, yoe, mp, day);
    assert (d.month + 9) % 12 == mp;
  }

  predicate LongYear(yoe: int) {
    Leap(yoe + 1)
  }

  lemma {:induction false} LeapByEra(era: int, yoe: int)
    ensures Leap(era * 400 + yoe + 1) <==> LongYear(yoe)
  {
    Shift4(100 * era, yoe + 1);
    Shift100(4 * era, yoe + 1);
    Shift400(era, yoe + 1);
  }

  lemma {:induction false} Shift4(k: int, x: int)
    ensures (k * 4 + x) % 4 == x % 4
  {
    assert k * 4 + x == (k + x / 4) * 4 + x % 4;
  }

  lemma {:induction false} Shift100(k: int, x: int)
    ensures (k * 100 + x) % 100 == x % 100
  {
    assert k * 100 + x == (k + x / 100) * 100 + x % 100;
  }

  lemma {:induction false} Shift400(k: int, x: int)
    ensures (k * 400 + x) % 400 == x % 400
  {
    assert k * 400 + x == (k + x / 400) * 400 + x % 400;
  }

  function MarchMonthLength(yoe: int, mp: int): int {
    if mp == 11 then (if LongYear(yoe) then 29 else 28) else if mp in {1, 3, 6, 8} then 30 else 31
  }

  lemma {:induction false} MonthLengths(era: int, yoe: int, mp: int)
    requires 0 <= mp <= 11
    ensures DaysInMonth(FromMarch(era, yoe, mp, 1).year, FromMarch(era, yoe, mp, 1).month) == MarchMonthLength(yoe, mp)
  {
    LeapByEra(era, yoe);
  }

  // ---------------------------------------------------------------- inverses

  /** The rounded division finds the year of the era from the day of the era. */
  lemma {:induction false} YearOfEraFound(c: int, q: int, s: int, doy: int)
    requires 0 <= c <= 3 && 0 <= q <= 24 && 0 <= s <= 3
    requires 0 <= doy <= (if s == 3 && (q < 24 || c == 3) then 365 else 364)
    ensures YearOfEra(36524 * c + 1461 * q + 365 * s + doy) == 100 * c + 4 * q + s
  {
    var doe := 36524 * c + 1461 * q + 365 * s + doy;
    var rest := 24 * c + q + 365 * s + doy;
    assert doe == 1460 * (25 * c + q) + rest;
    assert 0 <= rest < 2 * 1460;
    assert doe / 1460 == 25 * c + q + (if rest < 1460 then 0 else 1);
    var last := c == 3 && q == 24 && s == 3 && doy == 365;
    assert doe / 36524 == (if last then 4 else c);
    assert doe / 146096 == (if last then 1 else 0);
    var n := doe - doe / 1460 + doe / 36524 - doe / 146096;
    assert n == 365 * (100 * c + 4 * q + s) + (doy - (if rest < 1460 then 0 else 1));
    if rest >= 1460 {
      assert doy >= 1;
    } else {
      assert doy <= 364;
    }
  }

  /** Every day of an era lies in exactly one year of it. */
  lemma {:induction false} SplitDayOfEra(doe: int) returns (c: int, q: int, s: int, doy: int)
    requires 0 <= doe < 146097
    ensures 0 <= c <= 3 && 0 <= q <= 24 && 0 <= s <= 3
    ensures 0 <= doy <= (if s == 3 && (q < 24 || c == 3) then 365 else 364)
    ensures doe == 36524 * c + 1461 * q + 365 * s + doy
  {
    c := if doe / 36524 > 3 then 3 else doe / 36524;
    var inCentury := doe - 36524 * c;
    q := if inCentury / 1461 > 24 then 24 else inCentury / 1461;
    var inCycle := inCentury - 1461 * q;
    s := if inCycle / 365 > 3 then 3 else inCycle / 365;
    doy := inCycle - 365 * s;
  }

  /** The month of a March-based year is recovered from the day of the year. */
  lemma {:induction false} MonthFound(mp: int, day: int)
    requires 0 <= mp <= 11
    requires 1 <= day <= (if mp == 11 then 29 else if mp in {1, 3, 6, 8} then 30 else 31)
    ensures (5 * ((153 * mp + 2) / 5 + day - 1) + 2) / 153 == mp
    ensures 0 <= (153 * mp + 2) / 5 + day - 1 <= 365
    ensures (153 * mp + 2) / 5 + day - 1 == 365 <==> mp == 11 && day == 29
  {
  }

  lemma {:induction false} MonthOfDay(doy: int)
    requires 0 <= doy <= 365
    ensures var mp := (5 * doy + 2) / 153;
            var day := doy - (153 * mp + 2) / 5 + 1;
            && 0 <= mp <= 11
            && 1 <= day <= (if mp == 11 then 29 else if mp in {1, 3, 6, 8} then 30 else 31)
            && (mp == 11 && day == 29 <==> doy == 365)
  {
  }

  /** Which March-based years of the era are long: those followed by a leap February. */
  lemma {:induction false} LongYears(c: int, q: int, s: int, doy: int)
    requires 0 <= c <= 3 && 0 <= q <= 24 && 0 <= s <= 3
    ensures LongYear(100 * c + 4 * q + s) <==> s == 3 && (q < 24 || c == 3)
    ensures DayOfEra(100 * c + 4 * q + s, doy) == 36524 * c + 1461 * q + 365 * s + doy
  {
  }

  /** A day of the era and its coordinates determine each other. */
  lemma {:induction false} EraCoordinates(yoe: int, doy: int)
    requires 0 <= yoe < 400 && 0 <= doy <= (if LongYear(yoe) then 365 else 364)
    ensures YearOfEra(DayOfEra(yoe, doy)) == yoe
    ensures 0 <= DayOfEra(yoe, doy) < 146097
  {
    var c, q, s := yoe / 100, yoe % 100 / 4, yoe % 4;
    assert yoe == 100 * c + 4 * q + s;
    LongYears(c, q, s, doy);
    YearOfEraFound(c, q, s, doy);
  }

  lemma {:induction false} EraOf(era: int, doe: int)
    requires 0 <= doe < 146097
    ensures (era * 146097 + doe) / 146097 == era
  {
  }

  lemma {:induction false} CivilInEra(era: int, doe: int)
    requires 0 <= doe < 146097
    ensures CivilFromDays(era * 146097 + doe - 719468) == CivilOfEra(era, doe)
  {
    EraOf(era, doe);
  }

  lemma {:induction false} DayOfMonth(yoe: int, mp: int, day: int)
    requires 0 <= mp <= 11 && 1 <= day <= MarchMonthLength(yoe, mp)
    ensures 0 <= DayOfYear(mp, day) <= (if LongYear(yoe) then 365 else 364)
    ensures (5 * DayOfYear(mp, day) + 2) / 153 == mp
    ensures DayOfYear(mp, day) - (153 * mp + 2) / 5 + 1 == day
  {
    MonthFound(mp, day);
  }

  lemma {:induction false} CivilOfMarch(era: int, yoe: int, mp: int, day: int)
    requires 0 <= yoe < 400 && 0 <= mp <= 11 && 1 <= day <= MarchMonthLength(yoe, mp)
    ensures CivilFromDays(MarchDays(era, yoe, DayOfYear(mp, day))) == FromMarch(era, yoe, mp, day)
  {
    var doy := DayOfYear(mp, day);
    DayOfMonth(yoe, mp, day);
    EraCoordinates(yoe, doy);
    MarchDayInEra(era, yoe, doy);
    InYear(era, yoe, doy);
    InMonth(era, yoe, mp, day);
  }

  lemma {:induction false} MarchDayInEra(era: int, yoe: int, doy: int)
    requires 0 <= DayOfEra(yoe, doy) < 146097
    ensures CivilFromDays(MarchDays(era, yoe, doy)) == CivilOfEra(era, DayOfEra(yoe, doy))
  {
    CivilInEra(era, DayOfEra(yoe, doy));
  }

  lemma {:induction false} InMonth(era: int, yoe: int, mp: int, day: int)
    requires (5 * DayOfYear(mp, day) + 2) / 153 == mp
    requires DayOfYear(mp, day) - (153 * mp + 2) / 5 + 1 == day
    ensures CivilOfYear(era, yoe, DayOfYear(mp, day)) == FromMarch(era, yoe, mp, day)
  {
  }

  lemma {:induction false} InYear(era: int, yoe: int, doy: int)
    requires YearOfEra(DayOfEra(yoe, doy)) == yoe
    ensures CivilOfEra(era, DayOfEra(yoe, doy)) == CivilOfYear(era, yoe, doy)
  {
  }

  /** Every day number is the day number of the valid date computed from it. */
  lemma {:induction false} DaysOfCivil(days: int)
    ensures Valid(CivilFromDays(days))
    ensures DaysFromCivil(CivilFromDays(days)) == days
  {
    var era := (days + 719468) / 146097;
    var doe := days + 719468 - era * 146097;
    var c, q, s, doy := SplitDayOfEra(doe);
    var yoe := 100 * c + 4 * q + s;
    LongYears(c, q, s, doy);
    MonthOfDay(doy);
    var mp := (5 * doy + 2) / 153;
    var day := doy - (153 * mp + 2) / 5 + 1;
    assert DayOfYear(mp, day) == doy && DayOfEra(yoe, doy) == doe;
    assert days == MarchDays(era, yoe, DayOfYear(mp, day));
    CivilOfMarch(era, yoe, mp, day);
    MonthLengths(era, yoe, mp);
    DaysOfMarch(era, yoe, mp, day);
  }

  /** Every valid date is the date computed from its day number. */
  lemma {:induction false} CivilOfDays(d: Date)
    requires Valid(d)
    ensures CivilFromDays(DaysFromCivil(d)) == d
  {
    var era, yoe, mp := Coordinates(d);
    MonthLengths(era, yoe, mp);
    CivilOfMarch(era, yoe, mp, d.day);
  }

  // ---------------------------------------------------------------- the calendar, independently

  /** The day after `d`, read off the month lengths. */
  function Next(d: Date): Date {
    if d.day < DaysInMonth(d.year, d.month) then d.(day := d.day + 1)
    else if d.month < 12 then Date(d.year, d.month + 1, 1)
    else Date(d.year + 1, 1, 1)
  }

  lemma {:induction false} NextIsValid(d: Date)
    requires Valid(d)
    ensures Valid(Next(d))
  {
  }

  lemma {:induction false} NextWithinMonth(d: Date)
    ensures DaysFromCivil(d.(day := d.day + 1)) == DaysFromCivil(d) + 1
  {
  }

  lemma {:induction false} EpochIsDayZero()
    ensures DaysFromCivil(Date(1970, 1, 1)) == 0
  {
  }

  /**
    Walking the calendar one day at a time is exactly what DaysFromCivil counts; with EpochIsDayZero
    and the inverses above this fixes both functions completely.
   */
  lemma {:induction false} DaysFollowCalendar(d: Date)
    requires Valid(d)
    ensures DaysFromCivil(Next(d)) == DaysFromCivil(d) + 1
  {
    if d.day < DaysInMonth(d.year, d.month) {
      NextWithinMonth(d);
    } else {
      var era, yoe, mp := Coordinates(d);
      MonthLengths(era, yoe, mp);
      NextAcrossMonth(era, yoe, mp);
    }
  }

  lemma {:induction false} YearLengths(yoe: int)
    requires 0 <= yoe < 400
    ensures DayOfEra(yoe, if LongYear(yoe) then 366 else 365) == (if yoe == 399 then 146097 else DayOfEra(yoe + 1, 0))
  {
  }

  lemma {:induction false} MonthEnd(yoe: int, mp: int)
    requires 0 <= mp <= 11
    ensures DayOfYear(mp, MarchMonthLength(yoe, mp)) + 1 ==
            if mp < 11 then DayOfYear(mp + 1, 1) else if LongYear(yoe) then 366 else 365
  {
  }

  /** Month `mp` of a March-based year runs up to the first day of the next month or year. */
  lemma {:induction false} MonthSpan(era: int, yoe: int, mp: int)
    requires 0 <= yoe < 400 && 0 <= mp <= 11
    ensures MarchDays(era, yoe, DayOfYear(mp, MarchMonthLength(yoe, mp))) + 1 ==
            if mp < 11 then MarchDays(era, yoe, DayOfYear(mp + 1, 1))
            else if yoe < 399 then MarchDays(era, yoe + 1, DayOfYear(0, 1))
            else MarchDays(era + 1, 0, DayOfYear(0, 1))
  {
    MonthEnd(yoe, mp);
    var last := DayOfYear(mp, MarchMonthLength(yoe, mp));
    assert DayOfEra(yoe, last + 1) == DayOfEra(yoe, last) + 1;
    YearLengths(yoe);
  }

  function FirstOfNextMonth(era: int, yoe: int, mp: int): Date {
    if mp < 11 then FromMarch(era, yoe, mp + 1, 1)
    else if yoe < 399 then FromMarch(era, yoe + 1, 0, 1)
    else FromMarch(era + 1, 0, 0, 1)
  }

  lemma {:induction false} FirstOfNextMonthIsNext(era: int, yoe: int, mp: int)
    requires 0 <= yoe < 400 && 0 <= mp <= 11
    ensures Next(FromMarch(era, yoe, mp, MarchMonthLength(yoe, mp))) == FirstOfNextMonth(era, yoe, mp)
  {
    MonthLengths(era, yoe, mp);
  }

  lemma {:induction false} DaysOfFirst(era: int, yoe: int, mp: int)
    requires 0 <= yoe < 400 && 0 <= mp <= 11
    ensures DaysFromCivil(FirstOfNextMonth(era, yoe, mp)) ==
            MarchDays(era, yoe, DayOfYear(mp, MarchMonthLength(yoe, mp))) + 1
  {
    MonthSpan(era, yoe, mp);
    if mp < 11 {
      DaysOfMarch(era, yoe, mp + 1, 1);
    } else if yoe < 399 {
      DaysOfMarch(era, yoe + 1, 0, 1);
    } else {
      DaysOfMarch(era + 1, 0, 0, 1);
    }
  }

  lemma {:induction false} NextAcrossMonth(era: int, yoe: int, mp: int)
    requires 0 <= yoe < 400 && 0 <= mp <= 11
    ensures var last := FromMarch(era, yoe, mp, MarchMonthLength(yoe, mp));
            DaysFromCivil(Next(last)) == DaysFromCivil(last) + 1
  {
    FirstOfNextMonthIsNext(era, yoe, mp);
    DaysOfMarch(era, yoe, mp, MarchMonthLength(yoe, mp));
    DaysOfFirst(era, yoe, mp);
  }

  /** Earlier in the calendar, field by field. */
  predicate Earlier(a: Date, b: Date) {
    a.year < b.year || (a.year == b.year && (a.month < b.month || (a.month == b.month && a.day < b.day)))
  }

  lemma {:induction false} EarlierIsFewerDays(a: Date, b: Date)
    requires Valid(a) && Valid(b) && Earlier(a, b)
    ensures DaysFromCivil(a) < DaysFromCivil(b)
    decreases b.year - a.year, 12 - a.month, 31 - a.day
  {
    NextIsValid(a);
    DaysFollowCalendar(a);
    var n := Next(a);
    if n != b {
      EarlierIsFewerDays(n, b);
    }
  }

  // ---------------------------------------------------------------- the text

  datatype Moment = Moment(date: Date, hour: int, minute: int, second: int)

  predicate Proper(m: Moment) {
    Valid(m.date) && 0 <= m.hour <= 23 && 0 <= m.minute <= 59 && 0 <= m.second <= 59
  }

  function SecondsOf(m: Moment): int {
    DaysFromCivil(m.date) * 86400 + m.hour * 3600 + m.minute * 60 + m.second
  }

  function MomentOf(seconds: int): Moment {
    var days, rest := seconds / 86400, seconds % 86400;
    Moment(CivilFromDays(days), rest / 3600, rest % 3600 / 60, rest % 60)
  }

  function Zeros(k: int): string {
    if k <= 0 then "" else "0" + Zeros(k - 1)
  }

  /** Rust's zero-padded formatting: the sign counts towards the width. */
  function Padded(n: int, width: nat): string {
    var sign := if n < 0 then "-" else "";
    var digits := Decimal(if n < 0 then -n else n);
    sign + Zeros(width - |sign| - |digits|) + digits
  }

  function Join(year: string, month: string, day: string, hour: string, minute: string, second: string): string {
    year + "-" + month + "-" + day + "T" + hour + ":" + minute + ":" + second + "Z"
  }

  function TextOf(m: Moment): string {
    Join(Padded(m.date.year, 4), Padded(m.date.month, 2), Padded(m.date.day, 2),
         Padded(m.hour, 2), Padded(m.minute, 2), Padded(m.second, 2))
  }

  function FormatUtc(seconds: int): string {
    TextOf(MomentOf(seconds))
  }

  predicate AllDigits(t: string) {
    forall i :: 0 <= i < |t| ==> IsDigit(t[i])
  }

  /** Length and separators. */
  predicate Shaped(t: string) {
    |t| == 20 && t[4] == '-' && t[7] == '-' && t[10] == 'T' && t[13] == ':' && t[16] == ':' && t[19] == 'Z'
  }

  predicate Numeric(t: string)
    requires |t| == 20
  {
    AllDigits(t[0..4]) && AllDigits(t[5..7]) && AllDigits(t[8..10]) &&
    AllDigits(t[11..13]) && AllDigits(t[14..16]) && AllDigits(t[17..19])
  }

  function Numbers(t: string): Moment
    requires |t| == 20 && Numeric(t)
  {
    Moment(Date(NumberOf(t[0..4]), NumberOf(t[5..7]), NumberOf(t[8..10])),
           NumberOf(t[11..13]), NumberOf(t[14..16]), NumberOf(t[17..19]))
  }

  /** Every check of parse_utc except the final comparison. */
  function Fields(t: string): (r: Option<Moment>)
    ensures r.Some? ==> Proper(r.value)
  {
    if !Shaped(t) || !Numeric(t) then None
    else if !Proper(Numbers(t)) then None
    else Some(Numbers(t))
  }

  function ParseUtc(t: string): Option<int> {
    match Fields(t)
    case None => None
    case Some(m) => if FormatUtc(SecondsOf(m)) != t then None else Some(SecondsOf(m))
  }

  // ---------------------------------------------------------------- moments and seconds

  lemma {:induction false} MomentOfSeconds(m: Moment)
    requires Proper(m)
    ensures MomentOf(SecondsOf(m)) == m
  {
    CivilOfDays(m.date);
    var rest := m.hour * 3600 + m.minute * 60 + m.second;
    ClockParts(m.hour, m.minute, m.second);
    DayAndRest(DaysFromCivil(m.date), rest);
  }

  lemma {:induction false} DayAndRest(days: int, rest: int)
    requires 0 <= rest < 86400
    ensures (days * 86400 + rest) / 86400 == days && (days * 86400 + rest) % 86400 == rest
  {
  }

  lemma {:induction false} ClockParts(hour: int, minute: int, second: int)
    requires 0 <= hour <= 23 && 0 <= minute <= 59 && 0 <= second <= 59
    ensures var rest := hour * 3600 + minute * 60 + second;
            0 <= rest < 86400 && rest / 3600 == hour && rest % 3600 / 60 == minute && rest % 60 == second
  {
    var rest := hour * 3600 + minute * 60 + second;
    assert rest / 3600 == hour;
    assert rest % 3600 == minute * 60 + second;
    assert rest % 60 == second;
  }

  lemma {:induction false} SecondsOfMoment(seconds: int)
    ensures Proper(MomentOf(seconds))
    ensures SecondsOf(MomentOf(seconds)) == seconds
  {
    DaysOfCivil(seconds / 86400);
    ClockSplit(seconds % 86400);
    assert seconds == seconds / 86400 * 86400 + seconds % 86400;
  }

  lemma {:induction false} ClockSplit(rest: int)
    requires 0 <= rest < 86400
    ensures 0 <= rest / 3600 <= 23 && 0 <= rest % 3600 / 60 <= 59 && 0 <= rest % 60 <= 59
    ensures rest == rest / 3600 * 3600 + rest % 3600 / 60 * 60 + rest % 60
  {
    var h := rest / 3600;
    var m := (rest - h * 3600) / 60;
    assert rest % 3600 == rest - h * 3600;
    assert rest % 60 == rest - h * 3600 - m * 60;
  }

  // ---------------------------------------------------------------- padded numbers

  lemma {:induction false} ZerosEnd(k: nat)
    ensures Zeros(k) + "0" == Zeros(k + 1)
  {
    if k > 0 {
      ZerosEnd(k - 1);
      assert Zeros(k) + "0" == "0" + (Zeros(k - 1) + "0");
    }
  }

  lemma {:induction false} DecimalGrows(n: nat, c: char)
    requires n > 0 && IsDigit(c)
    ensures Decimal(n * 10 + DigitValue(c)) == Decimal(n) + [c]
  {
    var m := n * 10 + DigitValue(c);
    assert m / 10 == n && m % 10 == DigitValue(c);
  }

  predicate FilledTo(n: nat, t: string) {
    |Decimal(n)| <= |t| && Zeros(|t| - |Decimal(n)|) + Decimal(n) == t
  }

  lemma {:induction false} FilledGrows(n: nat, u: string, c: char)
    requires IsDigit(c) && u != "" && FilledTo(n, u)
    ensures FilledTo(n * 10 + DigitValue(c), u + [c])
  {
    if n == 0 {
      ZerosEnd(|u| - 1);
      assert Decimal(DigitValue(c)) == [c];
    } else {
      DecimalGrows(n, c);
      Associative(Zeros(|u| - |Decimal(n)|), Decimal(n), [c]);
    }
  }

  lemma {:induction false} NumberFills(t: string)
    requires t != "" && AllDigits(t)
    ensures FilledTo(NumberOf(t), t)
  {
    var u, c := t[..|t| - 1], t[|t| - 1];
    assert t == u + [c];
    if u == "" {
      var d := DigitValue(c);
      assert NumberOf(t) == d && Digit(d) == c && Decimal(d) == [Digit(d)];
      assert Zeros(0) + Decimal(d) == t;
    } else {
      NumberFills(u);
      FilledGrows(NumberOf(u), u, c);
    }
  }

  /** Padding the number a digit text denotes to the text's length gives the text back. */
  lemma {:induction false} PaddedNumber(t: string)
    requires t != "" && AllDigits(t)
    ensures Padded(NumberOf(t), |t|) == t
  {
    NumberFills(t);
    PaddedNatural(NumberOf(t), |t|);
  }

  lemma {:induction false} PaddedNatural(n: nat, width: nat)
    ensures Padded(n, width) == Zeros(width - |Decimal(n)|) + Decimal(n)
  {
    assert "" + Zeros(width - |""| - |Decimal(n)|) == Zeros(width - |Decimal(n)|);
  }

  lemma {:induction false} DecimalLength(n: nat)
    ensures n < 10 ==> |Decimal(n)| == 1
    ensures 10 <= n ==> |Decimal(n)| == |Decimal(n / 10)| + 1
  {
  }

  lemma {:induction false} ZerosNumber(k: int, s: string)
    requires AllDigits(s)
    ensures AllDigits(Zeros(k) + s) && NumberOf(Zeros(k) + s) == NumberOf(s)
    ensures |Zeros(k)| == if k < 0 then 0 else k
    decreases |s|, k
  {
    var t := Zeros(k) + s;
    if s != "" {
      ZerosNumber(k, s[..|s| - 1]);
      assert t[..|t| - 1] == Zeros(k) + s[..|s| - 1];
    } else if k > 0 {
      ZerosNumber(k - 1, "");
      ZerosEnd(k - 1);
      assert t == Zeros(k - 1) + "0";
      assert t[..|t| - 1] == Zeros(k - 1) + "";
    }
  }

  lemma {:induction false} NumberPadded(n: nat, width: nat)
    requires (width == 2 && n < 100) || (width == 4 && n < 10000)
    ensures |Padded(n, width)| == width && AllDigits(Padded(n, width))
    ensures NumberOf(Padded(n, width)) == n
  {
    DecimalRead(n);
    DecimalLength(n);
    DecimalLength(n / 10);
    DecimalLength(n / 10 / 10);
    DecimalLength(n / 10 / 10 / 10);
    ZerosNumber(width - |Decimal(n)|, Decimal(n));
    PaddedNatural(n, width);
  }

  // ---------------------------------------------------------------- layout of the text

  lemma {:induction false} Pieces(y: string, mo: string, d: string, h: string, mi: string, s: string)
    requires |y| == 4 && |mo| == |d| == |h| == |mi| == |s| == 2
    ensures var t := Join(y, mo, d, h, mi, s);
            && Shaped(t)
            && t[0..4] == y && t[5..7] == mo && t[8..10] == d && t[11..13] == h && t[14..16] == mi && t[17..19] == s
  {
  }

  lemma {:induction false} Whole(t: string)
    requires Shaped(t)
    ensures t == Join(t[0..4], t[5..7], t[8..10], t[11..13], t[14..16], t[17..19])
  {
  }

  /** The final comparison of parse_utc never rejects a text that passed the field checks. */
  lemma {:induction false} FormatOfFields(t: string)
    requires Fields(t).Some?
    ensures FormatUtc(SecondsOf(Fields(t).value)) == t
    ensures ParseUtc(t) == Some(SecondsOf(Fields(t).value))
    ensures 0 <= Fields(t).value.date.year <= 9999
  {
    var m := Fields(t).value;
    MomentOfSeconds(m);
    PaddedNumber(t[0..4]);
    PaddedNumber(t[5..7]);
    PaddedNumber(t[8..10]);
    PaddedNumber(t[11..13]);
    PaddedNumber(t[14..16]);
    PaddedNumber(t[17..19]);
    Whole(t);
    FourDigits(t[0..4]);
  }

  lemma {:induction false} FourDigits(t: string)
    requires |t| == 4 && AllDigits(t)
    ensures NumberOf(t) == DigitValue(t[0]) * 1000 + DigitValue(t[1]) * 100 + DigitValue(t[2]) * 10 + DigitValue(t[3])
  {
    TwoDigits(t[..2]);
    assert t[..3][..2] == t[..2];
    assert NumberOf(t[..3]) == NumberOf(t[..2]) * 10 + DigitValue(t[2]);
  }

  lemma {:induction false} TwoDigits(t: string)
    requires |t| == 2 && AllDigits(t)
    ensures NumberOf(t) == DigitValue(t[0]) * 10 + DigitValue(t[1])
  {
    assert NumberOf(t[..1]) == DigitValue(t[0]);
  }

  /** Printing and reading are inverse on every second of the years 0000 to 9999. */
  lemma {:induction false} ParseOfFormat(seconds: int)
    requires 0 <= MomentOf(seconds).date.year <= 9999
    ensures ParseUtc(FormatUtc(seconds)) == Some(seconds)
  {
    var m := MomentOf(seconds);
    SecondsOfMoment(seconds);
    NumberPadded(m.date.year, 4);
    NumberPadded(m.date.month, 2);
    NumberPadded(m.date.day, 2);
    NumberPadded(m.hour, 2);
    NumberPadded(m.minute, 2);
    NumberPadded(m.second, 2);
    Pieces(Padded(m.date.year, 4), Padded(m.date.month, 2), Padded(m.date.day, 2),
           Padded(m.hour, 2), Padded(m.minute, 2), Padded(m.second, 2));
    assert Fields(FormatUtc(seconds)) == Some(m);
  }

  /** parse_utc accepts exactly the printed forms of the seconds of the years 0000 to 9999. */
  lemma {:induction false} ParseAcceptsExactly(t: string, seconds: int)
    ensures ParseUtc(t) == Some(seconds) <==> t == FormatUtc(seconds) && 0 <= MomentOf(seconds).date.year <= 9999
  {
    if ParseUtc(t) == Some(seconds) {
      FormatOfFields(t);
      MomentOfSeconds(Fields(t).value);
    } else if t == FormatUtc(seconds) && 0 <= MomentOf(seconds).date.year <= 9999 {
      ParseOfFormat(seconds);
    }
  }

  // ---------------------------------------------------------------- text order is time order

  /** Where two texts of equal length first differ. */
  lemma {:induction false} FirstDifference(a: string, b: string) returns (i: nat)
    requires |a| == |b| && Below(a, b)
    ensures i < |a| && a[..i] == b[..i] && a[i] < b[i]
    decreases |a|
  {
    if a[0] < b[0] {
      i := 0;
    } else {
      var k := FirstDifference(a[1..], b[1..]);
      i := k + 1;
      assert a[..i] == [a[0]] + a[1..][..k] && b[..i] == [b[0]] + b[1..][..k];
    }
  }

  lemma {:induction false} Comparable(a: string, b: string)
    requires |a| == |b|
    ensures a == b || Below(a, b) || Below(b, a)
    decreases |a|
  {
    if a != "" && a[0] == b[0] {
      Comparable(a[1..], b[1..]);
      assert a == [a[0]] + a[1..] && b == [b[0]] + b[1..];
    }
  }

  predicate Before(a: Moment, b: Moment) {
    || Earlier(a.date, b.date)
    || (a.date == b.date && (a.hour < b.hour || (a.hour == b.hour && (a.minute < b.minute ||
        (a.minute == b.minute && a.second < b.second)))))
  }

  lemma {:induction false} BeforeIsFewerSeconds(a: Moment, b: Moment)
    requires Proper(a) && Proper(b) && Before(a, b)
    ensures SecondsOf(a) < SecondsOf(b)
  {
    if Earlier(a.date, b.date) {
      EarlierIsFewerDays(a.date, b.date);
    }
  }

  lemma {:induction false} SmallerText(a: string, b: string)
    requires Fields(a).Some? && Fields(b).Some? && Below(a, b)
    ensures Before(Fields(a).value, Fields(b).value)
  {
    var i := FirstDifference(a, b);
    assert forall k :: 0 <= k < i ==> a[k] == b[k] by {
      assert forall k :: 0 <= k < i ==> a[k] == a[..i][k] && b[k] == b[..i][k];
    }
    NumbersByDigit(a);
    NumbersByDigit(b);
  }

  lemma {:induction false} NumbersByDigit(t: string)
    requires |t| == 20 && Numeric(t)
    ensures forall k :: k in {0, 1, 2, 3, 5, 6, 8, 9, 11, 12, 14, 15, 17, 18} ==> IsDigit(t[k])
    ensures var v := (k: int) requires 0 <= k < 20 && IsDigit(t[k]) => DigitValue(t[k]);
            Numbers(t) == Moment(Date(v(0) * 1000 + v(1) * 100 + v(2) * 10 + v(3), v(5) * 10 + v(6), v(8) * 10 + v(9)),
                                 v(11) * 10 + v(12), v(14) * 10 + v(15), v(17) * 10 + v(18))
  {
    FourDigits(t[0..4]);
    TwoDigits(t[5..7]);
    TwoDigits(t[8..10]);
    TwoDigits(t[11..13]);
    TwoDigits(t[14..16]);
    TwoDigits(t[17..19]);
    assert t[0..4][0] == t[0] && t[0..4][1] == t[1] && t[0..4][2] == t[2] && t[0..4][3] == t[3];
    assert t[5..7][0] == t[5] && t[5..7][1] == t[6] && t[8..10][0] == t[8] && t[8..10][1] == t[9];
    assert t[11..13][0] == t[11] && t[11..13][1] == t[12] && t[14..16][0] == t[14] && t[14..16][1] == t[15];
    assert t[17..19][0] == t[17] && t[17..19][1] == t[18];
  }

  /** For accepted texts, comparing the raw strings compares the instants. */
  lemma {:induction false} TextOrderIsTimeOrder(a: string, b: string)
    requires ParseUtc(a).Some? && ParseUtc(b).Some?
    ensures Below(a, b) <==> ParseUtc(a).value < ParseUtc(b).value
    ensures a == b <==> ParseUtc(a).value == ParseUtc(b).value
  {
    Comparable(a, b);
    if Below(a, b) {
      SmallerText(a, b);
      BeforeIsFewerSeconds(Fields(a).value, Fields(b).value);
    } else if Below(b, a) {
      SmallerText(b, a);
      BeforeIsFewerSeconds(Fields(b).value, Fields(a).value);
    }
  }
}
