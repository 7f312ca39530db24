/** Backup names from the time (`timestamp_name`, `src/backup.rs`): the civil date of a day
    count, against the calendar rules of section 5.7 and Appendix C of RFC 3339. */
module Calendar {
  import opened Prelude
  import opened Text

  datatype Date = Date(year: int, month: int, day: int)

  // ----- the calendar -------------------------------------------------------------------

  predicate IsLeap(year: int) {
    year % 4 == 0 && (year % 100 != 0 || year % 400 == 0)
  }

  function DaysIn(year: int, month: int): int {
    if month == 2 then (if IsLeap(year) then 29 else 28)
    else if month == 4 || month == 6 || month == 9 || month == 11 then 30
    else 31
  }

  predicate IsDate(d: Date) {
    1 <= d.month <= 12 && 1 <= d.day <= DaysIn(d.year, d.month)
  }

  /** The day after `d`. */
  function Tomorrow(d: Date): Date {
    if d.day < DaysIn(d.year, d.month) then Date(d.year, d.month, d.day + 1)
    else if d.month < 12 then Date(d.year, d.month + 1, 1)
    else Date(d.year + 1, 1, 1)
  }

  predicate Before(a: Date, b: Date) {
    a.year < b.year || (a.year == b.year && (a.month < b.month || (a.month == b.month && a.day < b.day)))
  }

  // ----- the arithmetic ------------------------------------------------------------------

  /** The year of a 400-year era a day of the era falls in, years starting in March. */
  function YearOfEra(doe: int): int {
    (doe - doe / 1460 + doe / 36524 - doe / 146096) / 365
  }

  /** The days of an era before one of its years. */
  function YearStart(yoe: int): int {
    365 * yoe + yoe / 4 - yoe / 100
  }

  /** The date of day `doy` of the year from March of `year`. */
  function DateOf(year: int, doy: int): Date {
    var mp := (5 * doy + 2) / 153;
    var day := doy - (153 * mp + 2) / 5 + 1;
    var month := if mp < 10 then mp + 3 else mp - 9;
    Date(if month <= 2 then year + 1 else year, month, day)
  }

  /** The date of a day of an era. */
  function InEra(era: int, doe: int): Date {
    var yoe := YearOfEra(doe);
    DateOf(yoe + era * 400, doe - YearStart(yoe))
  }

  /** The civil date of a number of days since 1970-01-01. */
  function Civil(days: int): Date {
    var z := days + 719468;
    InEra(z / 146097, z % 146097)
  }

  // ----- years ----------------------------------------------------------------------------

  /** The year from March of `year` ends with February of the next. */
  function YearLength(year: int): int {
    if IsLeap(year + 1) then 366 else 365
  }

  /** A year of an era is `c` centuries, `q` times four years and `r` years; the arithmetic
      finds it from any of its days. */
  lemma YearFound(c: int, q: int, r: int, doy: int)
    requires 0 <= c < 4 && 0 <= q < 25 && 0 <= r < 4 && 0 <= doy <= 365
    requires doy == 365 ==> r == 3 && (q < 24 || c == 3)
    ensures YearOfEra(36524 * c + 1461 * q + 365 * r + doy) == 100 * c + 4 * q + r
  {
    var doe := 36524 * c + 1461 * q + 365 * r + doy;
    var carry := if 24 * c + q + 365 * r + doy >= 1460 then 1 else 0;
    assert doe / 1460 == 25 * c + q + carry;
    assert doe < 146096 ==> doe / 36524 == c && doe / 146096 == 0;
    assert doe == 146096 ==> doe / 36524 == 4 && doe / 146096 == 1;
    assert doe - doe / 1460 + doe / 36524 - doe / 146096
        == 365 * (100 * c + 4 * q + r) + (doy - carry);
  }

  lemma YearStartOf(c: int, q: int, r: int)
    requires 0 <= c < 4 && 0 <= q < 25 && 0 <= r < 4
    ensures YearStart(100 * c + 4 * q + r) == 36524 * c + 1461 * q + 365 * r
    ensures YearLength(100 * c + 4 * q + r) == if r == 3 && (q < 24 || c == 3) then 366 else 365
  {
    var yoe := 100 * c + 4 * q + r;
    assert yoe / 4 == 25 * c + q && yoe / 100 == c;
    assert (yoe + 1) % 4 == (r + 1) % 4;
  }

  /** The arithmetic splits an era into its years. */
  lemma EraSplits(doe: int)
    requires 0 <= doe < 146097
    ensures var yoe := YearOfEra(doe);
            0 <= yoe < 400 && 0 <= doe - YearStart(yoe) < YearLength(yoe)
  {
    var c := if doe == 146096 then 3 else doe / 36524;
    var q := (doe - 36524 * c) / 1461;
    var rest := doe - 36524 * c - 1461 * q;
    var r := if rest == 1460 then 3 else rest / 365;
    YearFound(c, q, r, rest - 365 * r);
    YearStartOf(c, q, r);
  }

  /** And back: day `doy` of year `yoe` is in that year. */
  lemma YearOfItsDays(yoe: int, doy: int)
    requires 0 <= yoe < 400 && 0 <= doy < YearLength(yoe)
    ensures YearOfEra(YearStart(yoe) + doy) == yoe
  {
    var c, q, r := yoe / 100, yoe % 100 / 4, yoe % 4;
    assert yoe == 100 * c + 4 * q + r;
    YearStartOf(c, q, r);
    YearFound(c, q, r, doy);
  }

  lemma NextYearStart(yoe: int)
    requires 0 <= yoe < 400
    ensures YearStart(yoe) + YearLength(yoe) == if yoe == 399 then 146097 else YearStart(yoe + 1)
  {
    var c, q, r := yoe / 100, yoe % 100 / 4, yoe % 4;
    assert yoe == 100 * c + 4 * q + r;
    YearStartOf(c, q, r);
    if r < 3 {
      YearStartOf(c, q, r + 1);
    } else if q < 24 {
      YearStartOf(c, q + 1, 0);
    } else if c < 3 {
      YearStartOf(c + 1, 0, 0);
    }
  }

  // ----- days of a year --------------------------------------------------------------------

  lemma LeapPeriod(year: int, era: int)
    ensures IsLeap(year + era * 400) == IsLeap(year)
  {
    Shift4(year, 100 * era);
    Shift100(year, 4 * era);
    Shift400(year, era);
  }

  lemma Shift4(x: int, k: int)
    ensures (x + 4 * k) % 4 == x % 4
  {
  }

  lemma Shift100(x: int, k: int)
    ensures (x + 100 * k) % 100 == x % 100
  {
  }

  lemma Shift400(x: int, k: int)
    ensures (x + 400 * k) % 400 == x % 400
  {
  }

  /** The months from March on, and the days before each. */
  function MonthIndex(doy: int): int {
    if doy < 31 then 0 else if doy < 61 then 1 else if doy < 92 then 2 else if doy < 122 then 3
    else if doy < 153 then 4 else if doy < 184 then 5 else if doy < 214 then 6
    else if doy < 245 then 7 else if doy < 275 then 8 else if doy < 306 then 9
    else if doy < 337 then 10 else 11
  }

  function MonthStart(mp: int): int {
    match mp
    case 0 => 0 case 1 => 31 case 2 => 61 case 3 => 92 case 4 => 122 case 5 => 153
    case 6 => 184 case 7 => 214 case 8 => 245 case 9 => 275 case 10 => 306 case _ => 337
  }

  function DateByMonths(year: int, doy: int): Date {
    var mp := MonthIndex(doy);
    var month := if mp < 10 then mp + 3 else mp - 9;
    Date(if month <= 2 then year + 1 else year, month, doy - MonthStart(mp) + 1)
  }

  /** The arithmetic of months is the table of months. */
  lemma DateOfByMonths(year: int, doy: int)
    requires 0 <= doy <= 365
    ensures DateOf(year, doy) == DateByMonths(year, doy)
  {
    var mp := MonthIndex(doy);
    assert (5 * doy + 2) / 153 == mp;
    assert (153 * mp + 2) / 5 == MonthStart(mp);
  }

  lemma DateOfValid(year: int, doy: int)
    requires 0 <= doy < YearLength(year)
    ensures IsDate(DateOf(year, doy))
  {
    DateOfByMonths(year, doy);
    hide DateOf, IsLeap;
  }

  lemma DateOfNext(year: int, doy: int)
    requires 0 <= doy < YearLength(year)
    ensures Tomorrow(DateOf(year, doy))
         == if doy + 1 < YearLength(year) then DateOf(year, doy + 1) else DateOf(year + 1, 0)
  {
    DateOfByMonths(year, doy);
    DateOfByMonths(year, if doy == 365 then 0 else doy + 1);
    DateOfByMonths(year + 1, 0);
    hide DateOf, IsLeap;
  }

  // ----- all days ----------------------------------------------------------------------------

  lemma CivilInEra(days: int, era: int, doe: int)
    requires 0 <= doe < 146097 && days + 719468 == 146097 * era + doe
    ensures Civil(days) == InEra(era, doe)
  {
    hide InEra;
    var z := days + 719468;
    assert z / 146097 == era && z % 146097 == doe;
  }

  /** The date of day `doy` of year `yoe` of an era. */
  lemma CivilOf(days: int, era: int, yoe: int, doy: int)
    requires 0 <= yoe < 400 && 0 <= doy < YearLength(yoe)
    requires days + 719468 == 146097 * era + (YearStart(yoe) + doy)
    ensures Civil(days) == DateOf(yoe + era * 400, doy)
  {
    YearStartBounds(yoe);
    YearOfItsDays(yoe, doy);
    hide Civil, YearOfEra, YearStart, DateOf, YearLength;
    CivilInEra(days, era, YearStart(yoe) + doy);
  }

  lemma YearStartBounds(yoe: int)
    requires 0 <= yoe < 400
    ensures 0 <= YearStart(yoe) && YearStart(yoe) + YearLength(yoe) <= 146097
  {
  }

  /** Every day is some day of some year of an era. */
  lemma DayOf(days: int) returns (era: int, yoe: int, doy: int)
    ensures 0 <= yoe < 400 && 0 <= doy < YearLength(yoe)
    ensures days + 719468 == 146097 * era + (YearStart(yoe) + doy)
  {
    var z := days + 719468;
    era := z / 146097;
    var doe := z % 146097;
    yoe := YearOfEra(doe);
    doy := doe - YearStart(yoe);
    EraSplits(doe);
  }

  lemma YearLengthPeriod(yoe: int, era: int)
    ensures YearLength(yoe + era * 400) == YearLength(yoe)
  {
    LeapPeriod(yoe + 1, era);
    assert yoe + 400 * era + 1 == yoe + 1 + 400 * era;
  }

  lemma CivilEpoch()
    ensures Civil(0) == Date(1970, 1, 1)
  {
    CivilOf(0, 4, 369, 306);
    hide Civil;
  }

  /** Every day count is a date of the calendar. */
  lemma CivilIsDate(days: int)
    ensures IsDate(Civil(days))
  {
    var era, yoe, doy := DayOf(days);
    CivilOf(days, era, yoe, doy);
    YearLengthPeriod(yoe, era);
    hide Civil;
    DateOfValid(yoe + era * 400, doy);
  }

  /** Successive days are successive dates. */
  lemma CivilTomorrow(days: int)
    ensures Civil(days + 1) == Tomorrow(Civil(days))
  {
    hide Civil, DateOf, Tomorrow, YearLength, YearStart;
    var era, yoe, doy := DayOf(days);
    CivilOf(days, era, yoe, doy);
    var era', yoe', doy' := NextDay(era, yoe, doy);
    CivilOf(days + 1, era', yoe', doy');
  }

  /** The next day is in the same year, or starts the next year, or the next era. */
  lemma NextDay(era: int, yoe: int, doy: int) returns (era': int, yoe': int, doy': int)
    requires 0 <= yoe < 400 && 0 <= doy < YearLength(yoe)
    ensures 0 <= yoe' < 400 && 0 <= doy' < YearLength(yoe')
    ensures 146097 * era' + (YearStart(yoe') + doy') == 146097 * era + (YearStart(yoe) + doy) + 1
    ensures Tomorrow(DateOf(yoe + era * 400, doy)) == DateOf(yoe' + era' * 400, doy')
  {
    hide DateOf, Tomorrow, YearLength, YearStart;
    if doy + 1 < YearLength(yoe) {
      SameYear(era, yoe, doy);
      era', yoe', doy' := era, yoe, doy + 1;
    } else if yoe < 399 {
      StartsYear(era, yoe, doy);
      era', yoe', doy' := era, yoe + 1, 0;
    } else {
      StartsEra(era, doy);
      era', yoe', doy' := era + 1, 0, 0;
    }
  }

  lemma SameYear(era: int, yoe: int, doy: int)
    requires 0 <= doy && doy + 1 < YearLength(yoe)
    ensures Tomorrow(DateOf(yoe + era * 400, doy)) == DateOf(yoe + era * 400, doy + 1)
  {
    YearLengthPeriod(yoe, era);
    hide DateOf, Tomorrow, YearLength;
    DateOfNext(yoe + era * 400, doy);
  }

  lemma StartsYear(era: int, yoe: int, doy: int)
    requires 0 <= yoe < 399 && 0 <= doy && doy + 1 == YearLength(yoe)
    ensures Tomorrow(DateOf(yoe + era * 400, doy)) == DateOf(yoe + 1 + era * 400, 0)
    ensures YearStart(yoe + 1) == YearStart(yoe) + doy + 1 && YearLength(yoe + 1) > 0
  {
    YearLengthPeriod(yoe, era);
    NextYearStart(yoe);
    YearsHaveDays(yoe + 1);
    hide DateOf, Tomorrow, YearLength, YearStart;
    DateOfNext(yoe + era * 400, doy);
    assert yoe + era * 400 + 1 == yoe + 1 + era * 400;
  }

  lemma StartsEra(era: int, doy: int)
    requires 0 <= doy && doy + 1 == YearLength(399)
    ensures Tomorrow(DateOf(399 + era * 400, doy)) == DateOf(0 + (era + 1) * 400, 0)
    ensures YearStart(399) + doy + 1 == 146097 && YearStart(0) == 0 && YearLength(0) > 0
  {
    YearLengthPeriod(399, era);
    NextYearStart(399);
    YearsHaveDays(0);
    assert YearStart(0) == 0;
    hide DateOf, Tomorrow, YearLength, YearStart;
    DateOfNext(399 + era * 400, doy);
    assert 399 + era * 400 + 1 == 0 + (era + 1) * 400;
  }

  lemma YearsHaveDays(year: int)
    ensures YearLength(year) > 0
  {
  }

  /** Later days are later dates. */
  lemma {:induction false} CivilOrdered(days: int, later: int)
    requires days < later
    ensures Before(Civil(days), Civil(later))
    decreases later - days
  {
    CivilTomorrow(later - 1);
    CivilIsDate(later - 1);
    hide Civil;
    if days < later - 1 {
      CivilOrdered(days, later - 1);
    }
  }

  // ----- names -------------------------------------------------------------------------------

  function Zeros(n: nat): string {
    seq(n, _ => '0')
  }

  /** `{n:0width$}` for a number that is not negative. */
  function PadNat(n: nat, width: nat): string {
    if |Dec(n)| >= width then Dec(n) else Zeros(width - |Dec(n)|) + Dec(n)
  }

  /** `{i:0width$}`: the sign counts, zeros follow it. */
  function Pad(i: int, width: nat): string {
    if i < 0 then "-" + PadNat(-i, if width == 0 then 0 else width - 1) else PadNat(i, width)
  }

  /** `timestamp_name`. */
  function TimestampName(unixMs: int): string {
    var secs := unixMs / 1000;
    var d, rem := Civil(secs / 86400), secs % 86400;
    "backup-" + (Pad(d.year, 4) + (Pad(d.month, 2) + (Pad(d.day, 2)
      + ("-" + (Pad(rem / 3600, 2) + (Pad(rem % 3600 / 60, 2) + Pad(rem % 60, 2)))))))
  }

  /** The order strings sort in. */
  predicate Less(a: string, b: string) {
    if a == [] || b == [] then a == [] && b != []
    else a[0] < b[0] || (a[0] == b[0] && Less(a[1..], b[1..]))
  }

  /** The last `width` decimal digits of `n`. */
  function Digits(n: nat, width: nat): (s: string)
    ensures |s| == width
  {
    if width == 0 then [] else Digits(n / 10, width - 1) + [DigitChar(n % 10)]
  }

  function Power10(width: nat): nat {
    if width == 0 then 1 else 10 * Power10(width - 1)
  }

  lemma {:induction false} ZeroDigits(width: nat)
    ensures Digits(0, width) == Zeros(width)
  {
    if width > 0 {
      ZeroDigits(width - 1);
      assert DigitChar(0) == '0';
    }
  }

  lemma {:induction false} PadIsDigits(n: nat, width: nat)
    requires 0 < width && n < Power10(width)
    ensures |Dec(n)| <= width && PadNat(n, width) == Digits(n, width)
    decreases width
  {
    if n < 10 {
      ZeroDigits(width - 1);
    } else {
      PadIsDigits(n / 10, width - 1);
    }
  }

  /** Text of equal length in front decides, unless it is equal. */
  lemma {:induction false} LessAppend(a: string, b: string, x: string, y: string)
    requires |a| == |b|
    ensures Less(a + x, b + y) <==> Less(a, b) || (a == b && Less(x, y))
    decreases |a|
  {
    if a == [] {
      assert a + x == x && b + y == y;
    } else {
      assert (a + x)[1..] == a[1..] + x && (b + y)[1..] == b[1..] + y;
      LessAppend(a[1..], b[1..], x, y);
      assert a == [a[0]] + a[1..] && b == [b[0]] + b[1..];
    }
  }

  /** Numbers of one width sort as their digits do. */
  lemma {:induction false} DigitsOrdered(m: nat, n: nat, width: nat)
    requires m < Power10(width) && n < Power10(width)
    ensures Less(Digits(m, width), Digits(n, width)) <==> m < n
    ensures Digits(m, width) == Digits(n, width) <==> m == n
    decreases width
  {
    if width > 0 {
      var dm, dn := DigitChar(m % 10), DigitChar(n % 10);
      DigitsOrdered(m / 10, n / 10, width - 1);
      LessAppend(Digits(m / 10, width - 1), Digits(n / 10, width - 1), [dm], [dn]);
      assert m == 10 * (m / 10) + m % 10 && n == 10 * (n / 10) + n % 10;
      assert Less([dm], [dn]) <==> m % 10 < n % 10;
      assert Digits(m, width)[width - 1] == dm && Digits(n, width)[width - 1] == dn;
      assert Digits(m, width)[..width - 1] == Digits(m / 10, width - 1);
      assert Digits(n, width)[..width - 1] == Digits(n / 10, width - 1);
    }
  }

  lemma PadOrdered(m: nat, n: nat, width: nat, x: string, y: string)
    requires width > 0 && m < Power10(width) && n < Power10(width)
    ensures Less(Pad(m, width) + x, Pad(n, width) + y) <==> m < n || (m == n && Less(x, y))
  {
    PadIsDigits(m, width);
    PadIsDigits(n, width);
    DigitsOrdered(m, n, width);
    LessAppend(Digits(m, width), Digits(n, width), x, y);
  }

  predicate FourDigitYear(unixMs: int) {
    0 <= Civil(unixMs / 1000 / 86400).year <= 9999
  }

  function ClockName(rem: int): string {
    Pad(rem / 3600, 2) + (Pad(rem % 3600 / 60, 2) + Pad(rem % 60, 2))
  }

  lemma ClockOrdered(rem: int, later: int)
    requires 0 <= rem < 86400 && 0 <= later < 86400
    ensures Less(ClockName(rem), ClockName(later)) <==> rem < later
  {
    hide Pad, Less;
    PartsOrdered(rem / 3600, rem % 3600 / 60, rem % 60, later / 3600, later % 3600 / 60, later % 60);
    SecondsOfDay(rem);
    SecondsOfDay(later);
  }

  lemma SecondsOfDay(rem: int)
    requires 0 <= rem < 86400
    ensures rem == 3600 * (rem / 3600) + 60 * (rem % 3600 / 60) + rem % 60
    ensures rem % 3600 / 60 < 60
  {
  }

  lemma PartsOrdered(h: int, m: int, s: int, h': int, m': int, s': int)
    requires 0 <= h < 24 && 0 <= m < 60 && 0 <= s < 60 && 0 <= h' < 24 && 0 <= m' < 60 && 0 <= s' < 60
    ensures Less(Pad(h, 2) + (Pad(m, 2) + Pad(s, 2)), Pad(h', 2) + (Pad(m', 2) + Pad(s', 2)))
       <==> h < h' || (h == h' && (m < m' || (m == m' && s < s')))
  {
    assert Power10(2) == 100;
    hide Pad, Power10;
    var x, y := Pad(s, 2), Pad(s', 2);
    assert x + "" == x && y + "" == y;
    PadOrdered(s, s', 2, "", "");
    PadOrdered(m, m', 2, x, y);
    PadOrdered(h, h', 2, Pad(m, 2) + x, Pad(m', 2) + y);
  }

  lemma NameOrdered(d: Date, e: Date, x: string, y: string)
    requires IsDate(d) && IsDate(e) && 0 <= d.year <= 9999 && 0 <= e.year <= 9999
    ensures Less(Pad(d.year, 4) + (Pad(d.month, 2) + (Pad(d.day, 2) + x)),
                 Pad(e.year, 4) + (Pad(e.month, 2) + (Pad(e.day, 2) + y)))
       <==> Before(d, e) || (d == e && Less(x, y))
  {
    hide Pad;
    assert Power10(2) == 100 && Power10(4) == 10000;
    PadOrdered(d.day, e.day, 2, x, y);
    PadOrdered(d.month, e.month, 2, Pad(d.day, 2) + x, Pad(e.day, 2) + y);
    PadOrdered(d.year, e.year, 4, Pad(d.month, 2) + (Pad(d.day, 2) + x), Pad(e.month, 2) + (Pad(e.day, 2) + y));
  }

  /** In the years 0 to 9999, names sort in time order, to the second. */
  lemma NamesSortInTimeOrder(unixMs: int, later: int)
    requires FourDigitYear(unixMs) && FourDigitYear(later)
    ensures Less(TimestampName(unixMs), TimestampName(later)) <==> unixMs / 1000 < later / 1000
  {
    hide Pad, Civil;
    var s, t := unixMs / 1000, later / 1000;
    var d, e := Civil(s / 86400), Civil(t / 86400);
    CivilIsDate(s / 86400);
    CivilIsDate(t / 86400);
    DaysOrdered(s / 86400, t / 86400);
    ClockOrdered(s % 86400, t % 86400);
    var x, y := "-" + ClockName(s % 86400), "-" + ClockName(t % 86400);
    LessAppend("-", "-", ClockName(s % 86400), ClockName(t % 86400));
    NameOrdered(d, e, x, y);
    LessAppend("backup-", "backup-",
      Pad(d.year, 4) + (Pad(d.month, 2) + (Pad(d.day, 2) + x)),
      Pad(e.year, 4) + (Pad(e.month, 2) + (Pad(e.day, 2) + y)));
    assert s == 86400 * (s / 86400) + s % 86400 && t == 86400 * (t / 86400) + t % 86400;
  }

  lemma DaysOrdered(days: int, later: int)
    ensures Before(Civil(days), Civil(later)) <==> days < later
    ensures Civil(days) == Civil(later) <==> days == later
  {
    if days < later {
      CivilOrdered(days, later);
    } else if later < days {
      CivilOrdered(later, days);
    }
    hide Civil;
  }

  // ----- reading a name back --------------------------------------------------------------------------

  /** The number spelt by `name` from `at` on, `width` digits long. */
  function NumberAt(name: string, at: nat, width: nat): Option<nat> {
    if at + width <= |name| then ParseDigits(name[at..at + width]) else None
  }

  lemma {:induction false} DigitsRead(n: nat, width: nat)
    requires n < Power10(width)
    ensures AllDigits(Digits(n, width)) && DigitsValue(Digits(n, width)) == n
    decreases width
  {
    if width > 0 {
      DigitsRead(n / 10, width - 1);
      var s := Digits(n, width);
      assert s[..|s| - 1] == Digits(n / 10, width - 1);
    }
  }

  /** A padded number stands in a text where it was put. */
  lemma PadRead(before: string, n: nat, width: nat, after: string)
    requires width > 0 && n < Power10(width)
    ensures |Pad(n, width)| == width
    ensures NumberAt(before + (Pad(n, width) + after), |before|, width) == Some(n)
  {
    PadIsDigits(n, width);
    DigitsRead(n, width);
    var t := before + (Pad(n, width) + after);
    assert t[|before|..|before| + width] == Pad(n, width);
  }

  lemma Shifted(before: string, one: string, after: string)
    ensures before + (one + after) == (before + one) + after
  {
  }

  /** In the years 0 to 9999 a name spells the civil date and the time of day, and these are
      the time it was made from. */
  lemma NameReadsBack(unixMs: int)
    requires FourDigitYear(unixMs)
    ensures var name, secs := TimestampName(unixMs), unixMs / 1000;
            var d, rem := Civil(secs / 86400), secs % 86400;
            && |name| == 22 && name[..7] == "backup-" && name[15] == '-'
            && NumberAt(name, 7, 4) == Some(d.year) && NumberAt(name, 11, 2) == Some(d.month)
            && NumberAt(name, 13, 2) == Some(d.day)
            && NumberAt(name, 16, 2) == Some(rem / 3600) && NumberAt(name, 18, 2) == Some(rem % 3600 / 60)
            && NumberAt(name, 20, 2) == Some(rem % 60)
            && rem == 3600 * (rem / 3600) + 60 * (rem % 3600 / 60) + rem % 60
  {
    var secs := unixMs / 1000;
    var d, rem := Civil(secs / 86400), secs % 86400;
    CivilIsDate(secs / 86400);
    SecondsOfDay(rem);
    hide Civil;
    PartsRead(d, rem / 3600, rem % 3600 / 60, rem % 60);
  }

  lemma PartsRead(d: Date, h: int, m: int, s: int)
    requires IsDate(d) && 0 <= d.year <= 9999 && 0 <= h < 24 && 0 <= m < 60 && 0 <= s < 60
    ensures var name := "backup-" + (Pad(d.year, 4) + (Pad(d.month, 2) + (Pad(d.day, 2)
                        + ("-" + (Pad(h, 2) + (Pad(m, 2) + Pad(s, 2)))))));
            && |name| == 22 && name[..7] == "backup-" && name[15] == '-'
            && NumberAt(name, 7, 4) == Some(d.year) && NumberAt(name, 11, 2) == Some(d.month)
            && NumberAt(name, 13, 2) == Some(d.day)
            && NumberAt(name, 16, 2) == Some(h) && NumberAt(name, 18, 2) == Some(m)
            && NumberAt(name, 20, 2) == Some(s)
  {
    assert d.month < 100 && d.day < 100;
    hide Pad, NumberAt, DaysIn;
    var clock := Pad(h, 2) + (Pad(m, 2) + Pad(s, 2));
    DateRead("backup-", d.year, d.month, d.day, "-" + clock);
    var date := "backup-" + Pad(d.year, 4) + Pad(d.month, 2) + Pad(d.day, 2);
    RegroupDate("backup-", Pad(d.year, 4), Pad(d.month, 2), Pad(d.day, 2), "-" + clock);
    Shifted(date, "-", clock);
    ClockRead(date + "-", h, m, s);
  }

  lemma RegroupDate(p: string, y: string, m: string, d: string, rest: string)
    ensures p + (y + (m + (d + rest))) == p + y + m + d + rest
  {
  }

  lemma DateRead(p: string, y: nat, m: nat, d: nat, rest: string)
    requires y < 10000 && m < 100 && d < 100
    ensures |Pad(y, 4)| == 4 && |Pad(m, 2)| == 2 && |Pad(d, 2)| == 2
    ensures var t := p + (Pad(y, 4) + (Pad(m, 2) + (Pad(d, 2) + rest)));
            && NumberAt(t, |p|, 4) == Some(y) && NumberAt(t, |p| + 4, 2) == Some(m)
            && NumberAt(t, |p| + 6, 2) == Some(d)
  {
    assert Power10(2) == 100 && Power10(4) == 10000;
    hide Pad, NumberAt, Power10;
    var ys, ms, ds := Pad(y, 4), Pad(m, 2), Pad(d, 2);
    PadRead(p, y, 4, ms + (ds + rest));
    Shifted(p, ys, ms + (ds + rest));
    PadRead(p + ys, m, 2, ds + rest);
    Shifted(p + ys, ms, ds + rest);
    PadRead(p + ys + ms, d, 2, rest);
  }

  lemma ClockRead(p: string, h: nat, m: nat, s: nat)
    requires h < 100 && m < 100 && s < 100
    ensures |Pad(h, 2)| == 2 && |Pad(m, 2)| == 2 && |Pad(s, 2)| == 2
    ensures var t := p + (Pad(h, 2) + (Pad(m, 2) + Pad(s, 2)));
            && NumberAt(t, |p|, 2) == Some(h) && NumberAt(t, |p| + 2, 2) == Some(m)
            && NumberAt(t, |p| + 4, 2) == Some(s)
  {
    assert Power10(2) == 100;
    hide Pad, NumberAt, Power10;
    var hs, ms, ss := Pad(h, 2), Pad(m, 2), Pad(s, 2);
    PadRead(p, h, 2, ms + ss);
    Shifted(p, hs, ms + ss);
    PadRead(p + hs, m, 2, ss);
    Shifted(p + hs, ms, ss);
    assert ss + "" == ss;
    PadRead(p + hs + ms, s, 2, "");
  }
}
