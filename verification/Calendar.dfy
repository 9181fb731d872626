/** Civil dates from day numbers, and the log's timestamps (util/logging.rs). */
module Calendar {
  import opened Text

  datatype Date = Date(year: int, month: int, day: int)

  // -- the proleptic Gregorian calendar (RFC 3339, section 5.7 and appendix C) --

  predicate IsLeap(y: int) {
    y % 4 == 0 && (y % 100 != 0 || y % 400 == 0)
  }

  function LeapDay(y: int): int {
    if IsLeap(y) then 1 else 0
  }

  function DaysInMonth(y: int, m: int): int {
    if m == 2 then 28 + LeapDay(y)
    else if m == 4 || m == 6 || m == 9 || m == 11 then 30
    else 31
  }

  predicate IsDate(d: Date) {
    1 <= d.month <= 12 && 1 <= d.day <= DaysInMonth(d.year, d.month)
  }

  /** The day after. */
  function Next(d: Date): Date {
    if d.day < DaysInMonth(d.year, d.month) then d.(day := d.day + 1)
    else if d.month < 12 then Date(d.year, d.month + 1, 1)
    else Date(d.year + 1, 1, 1)
  }

  /** Days in the years before `y`, counted from year 1. */
  function BeforeYear(y: int): int {
    365 * (y - 1) + (y - 1) / 4 - (y - 1) / 100 + (y - 1) / 400
  }

  function BeforeMonth(y: int, m: int): int {
    if m <= 1 then 0 else BeforeMonth(y, m - 1) + DaysInMonth(y, m - 1)
  }

  /** Days since 1970-01-01, counted year by year and month by month. */
  function DaysFromCivil(d: Date): int {
    BeforeYear(d.year) + BeforeMonth(d.year, d.month) + d.day - 1 - 719162
  }

  lemma EpochIsZero()
    ensures DaysFromCivil(Date(1970, 1, 1)) == 0
  {}

  // -- the source's algorithm -------------------------------------------------

  function YearOfEra(doe: int): int {
    (doe - doe / 1460 + doe / 36524 - doe / 146096) / 365
  }

  function CivilFromDays(z: int): Date {
    var shifted := z + 719468;
    var era := shifted / 146097;
    var doe := shifted % 146097;
    var yoe := YearOfEra(doe);
    var y := yoe + era * 400;
    var doy := doe - (365 * yoe + yoe / 4 - yoe / 100);
    var mp := (5 * doy + 2) / 153;
    var d := doy - (153 * mp + 2) / 5 + 1;
    var m := if mp < 10 then mp + 3 else mp - 9;
    Date(if m <= 2 then y + 1 else y, m, d)
  }

  const I64_MIN: int := -0x8000_0000_0000_0000
  const I64_MAX: int := 0x7FFF_FFFF_FFFF_FFFF

  predicate FitsI64(x: int) {
    I64_MIN <= x <= I64_MAX
  }

  /** On 64-bit integers only the first addition can overflow, and it does exactly on the last 719468 day numbers:
      every other intermediate value, and the result, is in range. */
  lemma NoOverflow(z: int)
    requires FitsI64(z)
    ensures FitsI64(z + 719468) <==> z <= I64_MAX - 719468
    ensures var shifted := z + 719468;
            var era, doe := shifted / 146097, shifted % 146097;
            var y := YearOfEra(doe) + era * 400;
            FitsI64(era) && 0 <= doe < 146097 && FitsI64(era * 400) && FitsI64(y)
            && FitsI64(CivilFromDays(z).year) && 1 <= CivilFromDays(z).month <= 12 && 1 <= CivilFromDays(z).day <= 31
  {
    YearFound((z + 719468) % 146097);
    ValidDate(z);
    Bounded(z);
    hide YearOfEra;
  }

  lemma Bounded(z: int)
    requires FitsI64(z)
    ensures -0x1000_0000_0000_0000 <= (z + 719468) / 146097 * 400 <= 0x1000_0000_0000_0000
  {}

  // -- years counted from March -----------------------------------------------

  /** Days in the years of an era before `y`, the years running from March. */
  function BeforeEraYear(y: int): int {
    365 * y + y / 4 - y / 100
  }

  /** The year at `c` whole centuries, `q` whole groups of four years and `r` days of an era. */
  function YearAt(c: int, q: int, r: int): int {
    100 * c + 4 * q + (if r == 1460 then 3 else r / 365)
  }

  predicate InEra(c: int, q: int, r: int) {
    0 <= c <= 3 && 0 <= q && 0 <= r <= 1460 && 1461 * q + r < 36524
  }

  /** The corrections in the algorithm's numerator remove exactly the leap days. */
  lemma YearComputed(c: int, q: int, r: int)
    requires InEra(c, q, r)
    ensures YearOfEra(36524 * c + 1461 * q + r) == YearAt(c, q, r)
  {
    var doe := 36524 * c + 1461 * q + r;
    var e := if 24 * c + q + r >= 1460 then 1 else 0;
    assert doe == 1460 * (25 * c + q + e) + (24 * c + q + r - 1460 * e);
    assert doe / 1460 == 25 * c + q + e;
    assert doe / 36524 == c && doe / 146096 == 0;
    assert doe - doe / 1460 + doe / 36524 == 365 * (100 * c + 4 * q) + (r - e);
    assert (r - e) / 365 == if r == 1460 then 3 else r / 365;
  }

  lemma YearBounds(c: int, q: int, r: int)
    requires InEra(c, q, r)
    ensures var y, doe := YearAt(c, q, r), 36524 * c + 1461 * q + r;
            0 <= y <= 399 && BeforeEraYear(y) <= doe < BeforeEraYear(y + 1)
  {
    var y := YearAt(c, q, r);
    var a := if r == 1460 then 3 else r / 365;
    assert 0 <= a <= 3 && q <= 24;
    assert y / 4 == 25 * c + q && y / 100 == c;
    assert BeforeEraYear(y) == 36524 * c + 1461 * q + 365 * a;
    if a < 3 {
      assert (y + 1) / 4 == 25 * c + q && (y + 1) / 100 == c;
    } else if q < 24 {
      assert (y + 1) / 4 == 25 * c + q + 1 && (y + 1) / 100 == c;
    } else {
      assert y + 1 == 100 * (c + 1);
      assert (y + 1) / 4 == 25 * (c + 1) && (y + 1) / 100 == c + 1;
    }
  }

  /** The computed year is the one the day falls in. */
  lemma YearFound(doe: int)
    requires 0 <= doe < 146097
    ensures var y := YearOfEra(doe);
            0 <= y <= 399 && BeforeEraYear(y) <= doe && (doe < BeforeEraYear(y + 1) || (y == 399 && doe == 146096))
  {
    if doe < 146096 {
      var c := doe / 36524;
      var left := doe % 36524;
      var q, r := left / 1461, left % 1461;
      assert doe == 36524 * c + 1461 * q + r;
      YearComputed(c, q, r);
      YearBounds(c, q, r);
      hide YearOfEra, YearAt, BeforeEraYear;
    } else {
      assert YearOfEra(146096) == 399 && BeforeEraYear(399) <= 146096;
    }
  }

  /** Day `doy` of a year running from March is day `d` of its month `mp`, March being month zero. */
  lemma MonthFound(doy: int)
    requires 0 <= doy <= 365
    ensures var mp := (5 * doy + 2) / 153;
            0 <= mp <= 11 && doy - (153 * mp + 2) / 5 >= 0
            && (mp < 11 ==> doy < (153 * (mp + 1) + 2) / 5)
  {}

  /** A day of a year that begins in March, and where that is in the calendar. */
  function Marched(y: int, mp: int, d: int): Date {
    var m := if mp < 10 then mp + 3 else mp - 9;
    Date(if m <= 2 then y + 1 else y, m, d)
  }

  /** Days from year 1 to a day given by March years. */
  lemma MarchedDays(y: int, mp: int, d: int)
    requires 0 <= mp <= 11
    ensures DaysFromCivil(Marched(y, mp, d)) == 365 * y + y / 4 - y / 100 + y / 400 + (153 * mp + 2) / 5 + d - 1 - 719468
  {
    var date := Marched(y, mp, d);
    MonthTable(date.year);
    if mp < 10 {
      LeapStep(y);
    } else {
      assert date.year - 1 == y;
    }
    hide BeforeMonth, IsLeap;
  }

  /** A year is a leap year exactly when the leap days counted grow across it. */
  lemma LeapStep(y: int)
    ensures LeapDay(y) == (y / 4 - y / 100 + y / 400) - ((y - 1) / 4 - (y - 1) / 100 + (y - 1) / 400)
  {
    assert y / 4 - (y - 1) / 4 == if y % 4 == 0 then 1 else 0;
    assert y / 100 - (y - 1) / 100 == if y % 100 == 0 then 1 else 0;
    assert y / 400 - (y - 1) / 400 == if y % 400 == 0 then 1 else 0;
    assert y % 400 == 0 ==> y % 100 == 0;
    assert y % 100 == 0 ==> y % 4 == 0;
  }

  lemma MonthTable(y: int)
    ensures var l := LeapDay(y);
            BeforeMonth(y, 1) == 0 && BeforeMonth(y, 2) == 31 && BeforeMonth(y, 3) == 59 + l
            && BeforeMonth(y, 4) == 90 + l && BeforeMonth(y, 5) == 120 + l && BeforeMonth(y, 6) == 151 + l
            && BeforeMonth(y, 7) == 181 + l && BeforeMonth(y, 8) == 212 + l && BeforeMonth(y, 9) == 243 + l
            && BeforeMonth(y, 10) == 273 + l && BeforeMonth(y, 11) == 304 + l && BeforeMonth(y, 12) == 334 + l
  {
    hide LeapDay;
    assert BeforeMonth(y, 1) == 0;
    assert BeforeMonth(y, 3) == 59 + LeapDay(y);
    assert BeforeMonth(y, 5) == 120 + LeapDay(y);
    assert BeforeMonth(y, 7) == 181 + LeapDay(y);
    assert BeforeMonth(y, 9) == 243 + LeapDay(y);
    assert BeforeMonth(y, 11) == 304 + LeapDay(y);
  }

  // -- the algorithm is right -------------------------------------------------

  /** The parts the algorithm works with: the era, the March year in it, the day of that year, its month and the
      day of that. */
  lemma Parts(z: int) returns (era: int, yoe: int, doy: int, mp: int, d: int)
    ensures z + 719468 == 146097 * era + BeforeEraYear(yoe) + doy
    ensures 0 <= yoe <= 399 && 0 <= doy <= 365 && (doy == 365 ==> IsLeap(yoe + 1))
    ensures 0 <= mp <= 11 && d == doy - (153 * mp + 2) / 5 + 1 >= 1
    ensures mp < 11 ==> d <= (153 * (mp + 1) + 2) / 5 - (153 * mp + 2) / 5
    ensures CivilFromDays(z) == Marched(yoe + era * 400, mp, d)
  {
    var doe;
    era, doe := (z + 719468) / 146097, (z + 719468) % 146097;
    YearFound(doe);
    yoe := YearOfEra(doe);
    YearLength(yoe);
    doy := doe - BeforeEraYear(yoe);
    mp := (5 * doy + 2) / 153;
    d := doy - (153 * mp + 2) / 5 + 1;
    hide YearOfEra;
    MonthFound(doy);
  }

  lemma YearLength(y: int)
    requires 0 <= y <= 399
    ensures BeforeEraYear(y + 1) - BeforeEraYear(y) == 365 + if y == 399 then 0 else LeapDay(y + 1)
  {
    LeapStep(y + 1);
  }

  lemma LeapPeriod(y: int, era: int)
    ensures IsLeap(y + era * 400) <==> IsLeap(y)
  {
    Period4(y, 100 * era);
    Period100(y, 4 * era);
    Period400(y, era);
  }

  lemma Period4(y: int, k: int)
    ensures (y + 4 * k) % 4 == y % 4
  {}

  lemma Period100(y: int, k: int)
    ensures (y + 100 * k) % 100 == y % 100
  {}

  lemma Period400(y: int, k: int)
    ensures (y + 400 * k) % 400 == y % 400
  {}

  lemma MonthLength(y: int, mp: int, d: int)
    requires 0 <= mp <= 11 && d >= 1
    requires if mp < 11 then d <= (153 * (mp + 1) + 2) / 5 - (153 * mp + 2) / 5 else d <= 28 + LeapDay(y + 1)
    ensures IsDate(Marched(y, mp, d))
  {
    hide LeapDay;
  }

  /** The result is always a date. */
  lemma ValidDate(z: int)
    ensures IsDate(CivilFromDays(z))
  {
    hide BeforeEraYear, IsLeap, CivilFromDays, IsDate, Marched;
    var era, yoe, doy, mp, d := Parts(z);
    LeapPeriod(yoe + 1, era);
    assert yoe + 1 + era * 400 == yoe + era * 400 + 1;
    assert mp == 11 ==> (153 * mp + 2) / 5 == 337;
    MonthLength(yoe + era * 400, mp, d);
  }

  lemma EraYears(yoe: int, era: int)
    requires 0 <= yoe <= 399
    ensures var y := yoe + era * 400;
            365 * y + y / 4 - y / 100 + y / 400 == BeforeEraYear(yoe) + 146097 * era
  {
    assert (yoe + era * 400) / 4 == yoe / 4 + 100 * era;
    assert (yoe + era * 400) / 100 == yoe / 100 + 4 * era;
    assert (yoe + era * 400) / 400 == era;
  }

  /** Counting the days up to the computed date gives the day number back. */
  lemma DaysOfCivil(z: int)
    ensures DaysFromCivil(CivilFromDays(z)) == z
  {
    hide BeforeEraYear, CivilFromDays, DaysFromCivil, Marched, IsLeap;
    var era, yoe, doy, mp, d := Parts(z);
    MarchedDays(yoe + era * 400, mp, d);
    EraYears(yoe, era);
  }

  lemma YearStep(y: int)
    ensures BeforeYear(y + 1) == BeforeYear(y) + 365 + LeapDay(y)
  {
    LeapStep(y);
  }

  lemma {:induction false} YearsGrow(y: int, k: nat)
    ensures BeforeYear(y + k) >= BeforeYear(y)
  {
    hide BeforeYear, LeapDay;
    if k > 0 {
      YearsGrow(y, k - 1);
      YearStep(y + k - 1);
      assert LeapDay(y + k - 1) >= 0 by { LeapSmall(y + k - 1); }
    }
  }

  lemma LeapSmall(y: int)
    ensures 0 <= LeapDay(y) <= 1
  {}

  /** Every date lies within its year. */
  lemma WithinYear(d: Date)
    requires IsDate(d)
    ensures 1 <= BeforeMonth(d.year, d.month) + d.day <= 365 + LeapDay(d.year)
  {
    MonthTable(d.year);
    LeapSmall(d.year);
    hide BeforeMonth, LeapDay;
  }

  predicate Earlier(a: Date, b: Date) {
    a.year < b.year || (a.year == b.year && (a.month < b.month || (a.month == b.month && a.day < b.day)))
  }

  /** An earlier date has a smaller day number. */
  lemma DaysIncrease(a: Date, b: Date)
    requires IsDate(a) && IsDate(b) && Earlier(a, b)
    ensures DaysFromCivil(a) < DaysFromCivil(b)
  {
    if a.year < b.year {
      WithinYear(a);
      WithinYear(b);
      YearStep(a.year);
      YearsGrow(a.year + 1, b.year - a.year - 1);
      hide BeforeYear, BeforeMonth, LeapDay, IsDate;
    } else {
      MonthsIncrease(a, b);
      hide BeforeYear, BeforeMonth, IsDate;
    }
  }

  lemma MonthsIncrease(a: Date, b: Date)
    requires IsDate(a) && IsDate(b) && a.year == b.year && Earlier(a, b)
    ensures BeforeMonth(a.year, a.month) + a.day < BeforeMonth(b.year, b.month) + b.day
  {
    MonthTable(a.year);
    LeapSmall(a.year);
    hide BeforeMonth, LeapDay;
  }

  lemma SameDaysSameDate(a: Date, b: Date)
    requires IsDate(a) && IsDate(b) && DaysFromCivil(a) == DaysFromCivil(b)
    ensures a == b
  {
    hide IsDate, DaysFromCivil;
    if a != b {
      if Earlier(a, b) {
        DaysIncrease(a, b);
      } else {
        DaysIncrease(b, a);
      }
    }
  }

  /** The other half of the inverse: every date comes back from its day number. */
  lemma CivilOfDays(d: Date)
    requires IsDate(d)
    ensures CivilFromDays(DaysFromCivil(d)) == d
  {
    ValidDate(DaysFromCivil(d));
    DaysOfCivil(DaysFromCivil(d));
    SameDaysSameDate(CivilFromDays(DaysFromCivil(d)), d);
    hide CivilFromDays, DaysFromCivil, IsDate;
  }

  lemma NextDay(d: Date)
    requires IsDate(d)
    ensures IsDate(Next(d)) && DaysFromCivil(Next(d)) == DaysFromCivil(d) + 1
  {
    MonthTable(d.year);
    MonthTable(d.year + 1);
    YearStep(d.year);
    LeapSmall(d.year);
    hide BeforeYear, BeforeMonth, LeapDay;
  }

  /** The next day number is the next date. */
  lemma Successor(z: int)
    ensures CivilFromDays(z + 1) == Next(CivilFromDays(z))
  {
    ValidDate(z);
    DaysOfCivil(z);
    NextDay(CivilFromDays(z));
    ValidDate(z + 1);
    DaysOfCivil(z + 1);
    SameDaysSameDate(CivilFromDays(z + 1), Next(CivilFromDays(z)));
    hide CivilFromDays, DaysFromCivil, IsDate, Next;
  }

  // -- timestamps -------------------------------------------------------------

  function Zeros(n: nat): string {
    seq(n, i => '0')
  }

  /** `{n:0width}`. */
  function Pad(n: nat, width: nat): string {
    var text := Decimal(n);
    if |text| < width then Zeros(width - |text|) + text else text
  }

  function Stamp(y: string, mo: string, d: string, h: string, mi: string, sec: string): string {
    y + "-" + mo + "-" + d + "T" + h + ":" + mi + ":" + sec
  }

  /** `YYYY-MM-DDTHH:MM:SS`; the year takes more digits when it has them. */
  function FormatEpochSecs(secs: nat): string {
    var date := CivilFromDays(secs / 86400);
    var rem := secs % 86400;
    ValidDate(secs / 86400);
    YearAfterEpoch(secs / 86400);
    Stamp(Pad(date.year, 4), Pad(date.month, 2), Pad(date.day, 2),
          Pad(rem / 3600, 2), Pad(rem % 3600 / 60, 2), Pad(rem % 60, 2))
  }

  lemma YearAfterEpoch(z: nat)
    ensures CivilFromDays(z).year >= 1970
  {
    ValidDate(z);
    DaysOfCivil(z);
    EpochIsZero();
    if CivilFromDays(z).year < 1970 {
      DaysIncrease(CivilFromDays(z), Date(1970, 1, 1));
    }
    hide CivilFromDays, DaysFromCivil;
  }

  lemma {:induction false} LeadingZeros(k: nat, text: string)
    requires AllDigits(text)
    ensures AllDigits(Zeros(k) + text) && DigitsValue(Zeros(k) + text) == DigitsValue(text)
    decreases k + |text|
  {
    var s := Zeros(k) + text;
    if text != "" {
      LeadingZeros(k, text[..|text| - 1]);
      assert s[..|s| - 1] == Zeros(k) + text[..|text| - 1];
    } else if k > 0 {
      LeadingZeros(k - 1, "");
      assert s[..k - 1] == Zeros(k - 1) + "";
    }
  }

  /** A padded number reads back, and takes two places when it is below a hundred. */
  lemma PadReads(n: nat, width: nat)
    ensures AllDigits(Pad(n, width)) && DigitsValue(Pad(n, width)) == n && |Pad(n, width)| >= width
    ensures width == 2 && n < 100 ==> |Pad(n, width)| == 2
  {
    DecimalValue(n);
    var text := Decimal(n);
    if |text| < width {
      LeadingZeros(width - |text|, text);
    }
    if n < 100 {
      assert |Decimal(n / 10)| == 1;
    }
  }

  function ReadNumber(s: string): int {
    if AllDigits(s) then DigitsValue(s) else 0
  }

  /** A timestamp read back from its right end: the year is whatever stands before the fixed fields. */
  function ReadTimestamp(s: string): int
    requires |s| >= 15
  {
    var k := |s| - 15;
    DaysFromCivil(Date(ReadNumber(s[..k]), ReadNumber(s[k + 1..k + 3]), ReadNumber(s[k + 4..k + 6]))) * 86400
    + ReadNumber(s[k + 7..k + 9]) * 3600 + ReadNumber(s[k + 10..k + 12]) * 60 + ReadNumber(s[k + 13..k + 15])
  }

  lemma Fields(y: string, mo: string, d: string, h: string, mi: string, sec: string)
    requires |mo| == 2 && |d| == 2 && |h| == 2 && |mi| == 2 && |sec| == 2
    ensures var s := Stamp(y, mo, d, h, mi, sec);
            var k := |y|;
            |s| == k + 15 && s[..k] == y && s[k + 1..k + 3] == mo && s[k + 4..k + 6] == d
            && s[k + 7..k + 9] == h && s[k + 10..k + 12] == mi && s[k + 13..k + 15] == sec
  {}

  lemma StampReads(y: string, mo: string, d: string, h: string, mi: string, sec: string)
    requires |mo| == 2 && |d| == 2 && |h| == 2 && |mi| == 2 && |sec| == 2
    ensures |Stamp(y, mo, d, h, mi, sec)| == |y| + 15
    ensures ReadTimestamp(Stamp(y, mo, d, h, mi, sec))
         == DaysFromCivil(Date(ReadNumber(y), ReadNumber(mo), ReadNumber(d))) * 86400
            + ReadNumber(h) * 3600 + ReadNumber(mi) * 60 + ReadNumber(sec)
  {
    Fields(y, mo, d, h, mi, sec);
    hide Stamp, DaysFromCivil, ReadNumber;
  }

  lemma PadNumber(n: nat, width: nat)
    ensures ReadNumber(Pad(n, width)) == n && |Pad(n, width)| >= width
    ensures width == 2 && n < 100 ==> |Pad(n, width)| == 2
  {
    PadReads(n, width);
    hide Pad;
  }

  /** No timestamp loses anything: it reads back to the second it was made from, at any time since the epoch. */
  lemma TimestampReads(secs: nat)
    ensures |FormatEpochSecs(secs)| >= 19 && ReadTimestamp(FormatEpochSecs(secs)) == secs
  {
    var date, rem := CivilFromDays(secs / 86400), secs % 86400;
    ValidDate(secs / 86400);
    YearAfterEpoch(secs / 86400);
    DaysOfCivil(secs / 86400);
    assert 1 <= date.month <= 12 && 1 <= date.day <= 31;
    Clock(rem);
    hide CivilFromDays, DaysFromCivil, Pad, Stamp, ReadNumber, ReadTimestamp, IsDate;
    PadNumber(date.year, 4);
    PadNumber(date.month, 2);
    PadNumber(date.day, 2);
    PadNumber(rem / 3600, 2);
    PadNumber(rem % 3600 / 60, 2);
    PadNumber(rem % 60, 2);
    StampReads(Pad(date.year, 4), Pad(date.month, 2), Pad(date.day, 2), Pad(rem / 3600, 2),
               Pad(rem % 3600 / 60, 2), Pad(rem % 60, 2));
    assert Date(date.year, date.month, date.day) == date;
  }

  lemma Clock(rem: int)
    requires 0 <= rem < 86400
    ensures 0 <= rem / 3600 < 24 && 0 <= rem % 3600 / 60 < 60 && 0 <= rem % 60 < 60
    ensures rem / 3600 * 3600 + rem % 3600 / 60 * 60 + rem % 60 == rem
  {}
}
