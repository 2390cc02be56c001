/** Epoch seconds as an RFC 3339 date-time (src/delivery.rs, 520-555). */
module CivilDate {
  import Decimal

  // ----- the proleptic Gregorian calendar, said independently -----

  datatype Date = Date(year: int, month: int, day: int)

  predicate IsLeap(y: int) {
    y % 4 == 0 && (y % 100 != 0 || y % 400 == 0)
  }

  function DaysInMonth(y: int, m: int): int {
    if m == 2 then (if IsLeap(y) then 29 else 28)
    else if m == 4 || m == 6 || m == 9 || m == 11 then 30
    else 31
  }

  predicate ValidDate(d: Date) {
    1 <= d.month <= 12 && 1 <= d.day <= DaysInMonth(d.year, d.month)
  }

  function Tomorrow(d: Date): Date {
    if d.day < DaysInMonth(d.year, d.month) then d.(day := d.day + 1)
    else if d.month < 12 then Date(d.year, d.month + 1, 1)
    else Date(d.year + 1, 1, 1)
  }

  /** Days of the years 1 to `y`, by the leap rule. */
  function YearDays(y: int): int {
    365 * y + y / 4 - y / 100 + y / 400
  }

  /** Days in the months of `y` before month `m`. */
  function DaysBefore(y: int, m: int): int
    decreases m
  {
    if m <= 1 then 0 else DaysBefore(y, m - 1) + DaysInMonth(y, m - 1)
  }

  /** Days from 1970-01-01: whole years by the leap rule, then whole months, then days. */
  function DaysFromCivil(d: Date): int {
    YearDays(d.year - 1) + DaysBefore(d.year, d.month) + d.day - 1 - 719_162
  }

  // ----- the algorithm -----

  function YearOfEra(doe: int): int {
    (doe - doe / 1_460 + doe / 36_524 - doe / 146_096) / 365
  }

  /** Days before March 1 of year `y` of an era. */
  function MarchDays(y: int): int {
    365 * y + y / 4 - y / 100
  }

  function DayOfYear(doe: int, yoe: int): int {
    doe - MarchDays(yoe)
  }

  /** Month and day from a day of the year that starts on March 1. */
  function MonthDay(doy: int): (int, int) {
    var shifted := (5 * doy + 2) / 153;
    (if shifted < 10 then shifted + 3 else shifted - 9, doy - (153 * shifted + 2) / 5 + 1)
  }

  function CivilFromDays(days: int): Date {
    var z := days + 719_468;
    CivilOfEra(z / 146_097, z % 146_097)
  }

  function CivilOfEra(era: int, doe: int): Date {
    CivilOfYear(era, doe, YearOfEra(doe))
  }

  function CivilOfYear(era: int, doe: int, yoe: int): Date {
    DateFromMarch(yoe + era * 400, DayOfYear(doe, yoe))
  }

  function DateFromMarch(year: int, doy: int): Date {
    var (month, day) := MonthDay(doy);
    Date(if month <= 2 then year + 1 else year, month, day)
  }

  // ----- correctness -----

  predicate PartsOf(c: int, q: int, y: int, d: int) {
    0 <= c <= 3 && 0 <= q <= 24 && 0 <= y <= 3 && 0 <= d <= 365 && (d == 365 ==> y == 3 && (q < 24 || c == 3))
  }

  /** A day of an era as centuries, four-year cycles, years and days, the last of each one longer. */
  lemma Parts(doe: int) returns (c: int, q: int, y: int, d: int)
    requires 0 <= doe < 146_097
    ensures PartsOf(c, q, y, d)
    ensures doe == 36_524 * c + 1_461 * q + 365 * y + d
  {
    c := if doe / 36_524 == 4 then 3 else doe / 36_524;
    var r := doe - 36_524 * c;
    q := r / 1_461;
    var s := r - 1_461 * q;
    y := if s / 365 == 4 then 3 else s / 365;
    d := s - 365 * y;
  }

  /** A quotient is known by its remainder. */
  lemma Quotient(n: int, d: int, q: int, r: int)
    requires 0 <= r < d && n == d * q + r
    ensures n / d == q
  {
    var gap := q - n / d;
    assert d * gap == n % d - r;
    assert gap >= 1 ==> d * gap >= d;
    assert gap <= -1 ==> d * gap <= -d;
  }

  /** The quotients in the year formula each miss the sum of whole years by at most a day. */
  lemma YearByParts(c: int, q: int, y: int, d: int)
    requires PartsOf(c, q, y, d)
    ensures YearOfEra(36_524 * c + 1_461 * q + 365 * y + d) == 100 * c + 4 * q + y
  {
    var doe := 36_524 * c + 1_461 * q + 365 * y + d;
    var cycles := 25 * c + q;
    var rest := cycles - c + 365 * y + d;
    var over := if rest >= 1_460 then 1 else 0;
    var last := if c == 3 && q == 24 && y == 3 && d == 365 then 1 else 0;
    Quotient(doe, 1_460, cycles + over, rest - 1_460 * over);
    Quotient(doe, 36_524, c + last, doe - 36_524 * (c + last));
    Quotient(doe, 146_096, last, doe - 146_096 * last);
    Quotient(365 * (4 * cycles + y) + d - over, 365, 4 * cycles + y, d - over);
  }

  /** Day `doe` of an era lies in year `yoe` of it, counted from March 1. */
  ghost predicate LiesIn(doe: int, yoe: int) {
    0 <= yoe < 400 && 0 <= DayOfYear(doe, yoe) <= 365 && (DayOfYear(doe, yoe) == 365 ==> IsLeap(yoe + 1))
  }

  lemma YearOfParts(c: int, q: int, y: int, d: int)
    requires PartsOf(c, q, y, d)
    ensures LiesIn(36_524 * c + 1_461 * q + 365 * y + d, 100 * c + 4 * q + y)
  {
    var yoe := 100 * c + 4 * q + y;
    Quotient(yoe, 4, 25 * c + q, y);
    Quotient(yoe, 100, c, 4 * q + y);
    assert DayOfYear(36_524 * c + 1_461 * q + 365 * y + d, yoe) == d;
    if d == 365 {
      LeapAfter(c, q);
    }
  }

  lemma LeapAfter(c: int, q: int)
    requires 0 <= c <= 3 && 0 <= q <= 24 && (q < 24 || c == 3)
    ensures IsLeap(100 * c + 4 * q + 4)
  {
    var y := 100 * c + 4 * q + 4;
    Quotient(y, 4, 25 * c + q + 1, 0);
    if q < 24 {
      Quotient(y, 100, c, 4 * q + 4);
    }
  }

  /** The year formula names the year the day lies in. */
  lemma YearOfEraIsRight(doe: int)
    requires 0 <= doe < 146_097
    ensures LiesIn(doe, YearOfEra(doe))
  {
    var c, q, y, d := Parts(doe);
    YearByParts(c, q, y, d);
    YearOfParts(c, q, y, d);
  }

  lemma YearDaysStep(y: int)
    ensures YearDays(y) == YearDays(y - 1) + 365 + (if IsLeap(y) then 1 else 0)
  {
    QuarterStep(y);
    CenturyStep(y);
    EraStep(y);
  }

  lemma QuarterStep(y: int)
    ensures y / 4 - (y - 1) / 4 == if y % 4 == 0 then 1 else 0
  {
    Div4((y - 1) % 4 + 1, (y - 1) / 4);
  }

  lemma CenturyStep(y: int)
    ensures y / 100 - (y - 1) / 100 == if y % 100 == 0 then 1 else 0
    ensures y % 100 == 0 ==> y % 4 == 0
  {
    var q, r := (y - 1) / 100, (y - 1) % 100;
    Div100(r + 1, q);
    Div4(r + 1, 25 * q);
  }

  lemma EraStep(y: int)
    ensures y / 400 - (y - 1) / 400 == if y % 400 == 0 then 1 else 0
    ensures y % 400 == 0 ==> y % 100 == 0
  {
    var q, r := (y - 1) / 400, (y - 1) % 400;
    Div400(r + 1, q);
    Div100(r + 1, 4 * q);
  }

  lemma {:induction false} YearDaysMonotone(y: int, y': int)
    requires y <= y'
    ensures YearDays(y) <= YearDays(y')
    decreases y' - y
  {
    if y < y' {
      YearDaysMonotone(y, y' - 1);
      YearDaysStep(y');
    }
  }

  lemma EraDays(era: int, yoe: int)
    requires 0 <= yoe < 400
    ensures YearDays(yoe + era * 400) == 146_097 * era + MarchDays(yoe)
  {
    Div4(yoe, era * 100);
    Div100(yoe, era * 4);
    Div400(yoe, era);
  }

  lemma Div4(y: int, k: int)
    ensures (y + 4 * k) / 4 == y / 4 + k && (y + 4 * k) % 4 == y % 4
  {
    Quotient(y + 4 * k, 4, y / 4 + k, y % 4);
  }

  lemma Div100(y: int, k: int)
    ensures (y + 100 * k) / 100 == y / 100 + k && (y + 100 * k) % 100 == y % 100
  {
    Quotient(y + 100 * k, 100, y / 100 + k, y % 100);
  }

  lemma Div400(y: int, k: int)
    ensures (y + 400 * k) / 400 == y / 400 + k && (y + 400 * k) % 400 == y % 400
  {
    Quotient(y + 400 * k, 400, y / 400 + k, y % 400);
  }

  lemma MonthTable(y: int)
    ensures var leap := if IsLeap(y) then 1 else 0;
            && DaysBefore(y, 1) == 0 && DaysBefore(y, 2) == 31 && DaysBefore(y, 3) == 59 + leap
            && DaysBefore(y, 4) == 90 + leap && DaysBefore(y, 5) == 120 + leap && DaysBefore(y, 6) == 151 + leap
            && DaysBefore(y, 7) == 181 + leap && DaysBefore(y, 8) == 212 + leap && DaysBefore(y, 9) == 243 + leap
            && DaysBefore(y, 10) == 273 + leap && DaysBefore(y, 11) == 304 + leap && DaysBefore(y, 12) == 334 + leap
            && DaysBefore(y, 13) == 365 + leap
  {
    assert DaysBefore(y, 2) == 31;
    assert DaysBefore(y, 4) == DaysBefore(y, 3) + 31;
    assert DaysBefore(y, 6) == DaysBefore(y, 5) + 31;
    assert DaysBefore(y, 8) == DaysBefore(y, 7) + 31;
    assert DaysBefore(y, 10) == DaysBefore(y, 9) + 30;
    assert DaysBefore(y, 12) == DaysBefore(y, 11) + 30;
  }

  /** The month formula against the calendar, for a year `y` whose March 1 starts the count. */
  lemma MonthDayIsRight(y: int, doy: int)
    requires 0 <= doy <= 365 && (doy == 365 ==> IsLeap(y + 1))
    ensures var (m, d) := MonthDay(doy);
            var civil := if m <= 2 then y + 1 else y;
            && 1 <= m <= 12 && 1 <= d <= DaysInMonth(civil, m)
            && DaysBefore(civil, m) + d - 1 == if m <= 2 then doy - 306 else doy + DaysBefore(y, 3)
  {
    MonthTable(y);
    MonthTable(y + 1);
    var shifted := (5 * doy + 2) / 153;
    assert 0 <= shifted <= 11;
    assert MonthDay(doy).1 == doy - (153 * shifted + 2) / 5 + 1;
  }

  lemma LeapRepeats(era: int, y: int)
    ensures IsLeap(y + era * 400) == IsLeap(y)
  {
    Div4(y, era * 100);
    Div100(y, era * 4);
    Div400(y, era);
  }

  /** A calendar date, and the one `days` days from 1970-01-01. */
  ghost predicate IsDay(d: Date, days: int) {
    ValidDate(d) && DaysFromCivil(d) == days
  }

  lemma MarchDateIsValid(year: int, doy: int)
    requires 0 <= doy <= 365 && (doy == 365 ==> IsLeap(year + 1))
    ensures ValidDate(DateFromMarch(year, doy))
  {
    MonthDayIsRight(year, doy);
  }

  /** A day number from the days of the whole years and the days of the year. */
  lemma DaysFromParts(d: Date, years: int, days: int)
    requires YearDays(d.year - 1) == years && DaysBefore(d.year, d.month) + d.day - 1 == days
    ensures DaysFromCivil(d) == years + days - 719_162
  {
  }

  lemma MarchDayOfYear(year: int, doy: int)
    requires 0 <= doy <= 365 && (doy == 365 ==> IsLeap(year + 1))
    ensures var d := DateFromMarch(year, doy);
            && d.year == (if d.month <= 2 then year + 1 else year)
            && DaysBefore(d.year, d.month) + d.day - 1 ==
               if d.month <= 2 then doy - 306 else doy + 59 + if IsLeap(year) then 1 else 0
  {
    MonthDayIsRight(year, doy);
    MonthTable(year);
  }

  lemma MarchDateCounts(year: int, doy: int)
    requires 0 <= doy <= 365 && (doy == 365 ==> IsLeap(year + 1))
    ensures DaysFromCivil(DateFromMarch(year, doy)) == YearDays(year) + doy - 306 - 719_162
  {
    var d, years := DateFromMarch(year, doy), YearDays(year);
    MarchDayOfYear(year, doy);
    if d.month <= 2 {
      DaysFromParts(d, years, doy - 306);
    } else {
      var leap := if IsLeap(year) then 1 else 0;
      YearDaysStep(year);
      DaysFromParts(d, years - 365 - leap, doy + 59 + leap);
    }
  }

  /** The date `doy` days after March 1 of `year`. */
  lemma MarchDate(year: int, doy: int)
    requires 0 <= doy <= 365 && (doy == 365 ==> IsLeap(year + 1))
    ensures IsDay(DateFromMarch(year, doy), YearDays(year) + doy - 306 - 719_162)
  {
    MarchDateIsValid(year, doy);
    MarchDateCounts(year, doy);
  }

  lemma CivilOfYearIsRight(era: int, doe: int, yoe: int)
    requires LiesIn(doe, yoe)
    ensures IsDay(CivilOfYear(era, doe, yoe), 146_097 * era + doe - 719_468)
  {
    var doy := DayOfYear(doe, yoe);
    LeapRepeats(era, yoe + 1);
    EraDays(era, yoe);
    MarchDate(yoe + era * 400, doy);
    assert YearDays(yoe + era * 400) + doy - 306 - 719_162 == 146_097 * era + doe - 719_468;
  }

  lemma CivilOfEraIsRight(era: int, doe: int)
    requires 0 <= doe < 146_097
    ensures IsDay(CivilOfEra(era, doe), 146_097 * era + doe - 719_468)
  {
    YearOfEraIsRight(doe);
    CivilOfYearIsRight(era, doe, YearOfEra(doe));
  }

  /** For every day number, negative ones included: a calendar date, and the one that is that many
      days from 1970-01-01. */
  lemma CivilFromDaysIsRight(days: int)
    ensures IsDay(CivilFromDays(days), days)
  {
    var z := days + 719_468;
    CivilOfEraIsRight(z / 146_097, z % 146_097);
    assert 146_097 * (z / 146_097) + z % 146_097 == z;
  }

  lemma {:induction false} DaysBeforeMonotone(y: int, m: int, m': int)
    requires 1 <= m < m'
    ensures DaysBefore(y, m) + DaysInMonth(y, m) <= DaysBefore(y, m')
    decreases m'
  {
    if m < m' - 1 {
      DaysBeforeMonotone(y, m, m' - 1);
    }
  }

  predicate Earlier(d: Date, e: Date) {
    d.year < e.year || (d.year == e.year && (d.month < e.month || (d.month == e.month && d.day < e.day)))
  }

  /** A date lies within its year. */
  lemma YearBounds(d: Date)
    requires ValidDate(d)
    ensures YearDays(d.year - 1) - 719_162 <= DaysFromCivil(d) < YearDays(d.year) - 719_162
  {
    MonthTable(d.year);
    DaysBeforeMonotone(d.year, d.month, 13);
    DaysBeforeNonNegative(d.year, d.month);
    var before, here := YearDays(d.year - 1), YearDays(d.year);
    assert here == before + 365 + (if IsLeap(d.year) then 1 else 0) by {
      YearDaysStep(d.year);
    }
  }

  lemma EarlierYear(d: Date, e: Date)
    requires ValidDate(d) && ValidDate(e) && d.year < e.year
    ensures DaysFromCivil(d) < DaysFromCivil(e)
  {
    YearBounds(d);
    YearBounds(e);
    YearDaysMonotone(d.year, e.year - 1);
  }

  lemma SameYear(d: Date, e: Date, years: int)
    requires ValidDate(d) && ValidDate(e) && d.year == e.year && years == YearDays(d.year - 1)
    requires d.month < e.month || (d.month == e.month && d.day < e.day)
    ensures DaysFromCivil(d) < DaysFromCivil(e)
  {
    DaysFromParts(d, years, DaysBefore(d.year, d.month) + d.day - 1);
    DaysFromParts(e, years, DaysBefore(e.year, e.month) + e.day - 1);
    if d.month < e.month {
      DaysBeforeMonotone(d.year, d.month, e.month);
    }
  }

  lemma DaysAreOrdered(d: Date, e: Date)
    requires ValidDate(d) && ValidDate(e) && Earlier(d, e)
    ensures DaysFromCivil(d) < DaysFromCivil(e)
  {
    if d.year < e.year {
      EarlierYear(d, e);
    } else {
      SameYear(d, e, YearDays(d.year - 1));
    }
  }

  lemma {:induction false} DaysBeforeNonNegative(y: int, m: int)
    ensures DaysBefore(y, m) >= 0
    decreases m
  {
    if m > 1 {
      DaysBeforeNonNegative(y, m - 1);
    }
  }

  /** The other direction: every calendar date is found again from its day number. */
  lemma EveryDateIsFound(d: Date)
    requires ValidDate(d)
    ensures CivilFromDays(DaysFromCivil(d)) == d
  {
    var e := CivilFromDays(DaysFromCivil(d));
    CivilFromDaysIsRight(DaysFromCivil(d));
    if Earlier(d, e) {
      DaysAreOrdered(d, e);
    } else if Earlier(e, d) {
      DaysAreOrdered(e, d);
    }
  }

  lemma FoundAt(d: Date, days: int)
    requires ValidDate(d) && DaysFromCivil(d) == days
    ensures CivilFromDays(days) == d
  {
    EveryDateIsFound(d);
  }

  lemma DayNumberZero(d: Date)
    requires d.year == 1970 && d.month == 1 && d.day == 1
    ensures DaysFromCivil(d) == 0
  {
    assert DaysBefore(d.year, 1) == 0;
    Quotient(1969, 4, 492, 1);
    Quotient(1969, 100, 19, 69);
    Quotient(1969, 400, 4, 369);
  }

  /** Day zero is 1970-01-01. */
  lemma DayZero(days: int)
    requires days == 0
    ensures CivilFromDays(days) == Date(1970, 1, 1)
  {
    var d := Date(1970, 1, 1);
    DayNumberZero(d);
    FoundAt(d, days);
  }

  lemma TomorrowIsNext(d: Date)
    requires ValidDate(d)
    ensures ValidDate(Tomorrow(d)) && DaysFromCivil(Tomorrow(d)) == DaysFromCivil(d) + 1
  {
    if d.day == DaysInMonth(d.year, d.month) && d.month == 12 {
      MonthTable(d.year);
      YearDaysStep(d.year);
    }
  }

  /** Consecutive days give consecutive dates. */
  lemma ConsecutiveDays(days: int)
    ensures CivilFromDays(days + 1) == Tomorrow(CivilFromDays(days))
  {
    CivilFromDaysIsRight(days);
    TomorrowIsNext(CivilFromDays(days));
    FoundAt(Tomorrow(CivilFromDays(days)), days + 1);
  }

  // ----- the text -----

  /** `n` with zeros in front up to `width` characters. */
  function Pad(n: nat, width: nat): (s: string)
    ensures |s| >= width && Decimal.AllDigits(s)
  {
    var digits := Decimal.OfNat(n);
    seq(if |digits| < width then width - |digits| else 0, _ => '0') + digits
  }

  /** A year in a zero-padded field of four, where a sign takes one of the four. */
  function YearText(y: int): string {
    if y >= 0 then Pad(y, 4) else "-" + Pad(-y, 3)
  }

  function Assemble(y: string, mo: string, d: string, h: string, mi: string, sec: string): string {
    y + "-" + mo + "-" + d + "T" + h + ":" + mi + ":" + sec + "Z"
  }

  function DateTimeText(d: Date, seconds: nat): string
    requires ValidDate(d)
  {
    Assemble(YearText(d.year), Pad(d.month, 2), Pad(d.day, 2),
             Pad(seconds / 3_600, 2), Pad(seconds % 3_600 / 60, 2), Pad(seconds % 60, 2))
  }

  function Rfc3339(t: int): string {
    CivilFromDaysIsRight(t / 86_400);
    DateTimeText(CivilFromDays(t / 86_400), t % 86_400)
  }

  /** The date-time form of section 5.6 of RFC 3339, in UTC and without a fraction. */
  ghost predicate DateTimeForm(s: string) {
    && |s| == 20
    && Decimal.AllDigits(s[0..4]) && s[4] == '-' && Decimal.AllDigits(s[5..7]) && s[7] == '-'
    && Decimal.AllDigits(s[8..10]) && s[10] == 'T' && Decimal.AllDigits(s[11..13]) && s[13] == ':'
    && Decimal.AllDigits(s[14..16]) && s[16] == ':' && Decimal.AllDigits(s[17..19]) && s[19] == 'Z'
  }

  ghost function ReadDateTime(s: string): int
    requires DateTimeForm(s)
  {
    DaysFromCivil(Date(Decimal.ToNat(s[0..4]), Decimal.ToNat(s[5..7]), Decimal.ToNat(s[8..10]))) * 86_400
    + Decimal.ToNat(s[11..13]) * 3_600 + Decimal.ToNat(s[14..16]) * 60 + Decimal.ToNat(s[17..19])
  }

  lemma {:induction false} LeadingZeros(k: nat, s: string)
    requires Decimal.AllDigits(s)
    ensures Decimal.ToNat(seq(k, _ => '0') + s) == Decimal.ToNat(s)
    decreases |s|, k
  {
    var padded := seq(k, _ => '0') + s;
    if s != [] {
      assert padded[..|padded| - 1] == seq(k, _ => '0') + s[..|s| - 1];
      LeadingZeros(k, s[..|s| - 1]);
    } else if k > 0 {
      assert padded == seq(k, _ => '0');
      assert padded[..k - 1] == seq(k - 1, _ => '0') + [];
      LeadingZeros(k - 1, []);
    }
  }

  lemma PadReadsBack(n: nat, width: nat)
    ensures Decimal.ToNat(Pad(n, width)) == n
  {
    var digits := Decimal.OfNat(n);
    LeadingZeros(if |digits| < width then width - |digits| else 0, digits);
    Decimal.RoundTrip(n);
  }

  /** A field keeps its width exactly while the number fits in it. */
  lemma DigitsNeeded(n: nat)
    ensures |Decimal.OfNat(n)| <= 2 <==> n < 100
    ensures |Decimal.OfNat(n)| <= 4 <==> n < 10_000
  {
    var tens, hundreds, thousands := n / 10, n / 100, n / 1_000;
    assert tens / 10 == hundreds && hundreds / 10 == thousands;
    assert n >= 10 ==> |Decimal.OfNat(n)| == |Decimal.OfNat(tens)| + 1;
    assert tens >= 10 ==> |Decimal.OfNat(tens)| == |Decimal.OfNat(hundreds)| + 1;
    assert hundreds >= 10 ==> |Decimal.OfNat(hundreds)| == |Decimal.OfNat(thousands)| + 1;
    assert thousands < 10 <==> |Decimal.OfNat(thousands)| == 1;
  }

  /** Six fields of the right widths read back, whatever the year field holds. */
  lemma AssembledFields(y: string, mo: nat, d: nat, h: nat, mi: nat, sec: nat)
    requires mo < 100 && d < 100 && h < 100 && mi < 100 && sec < 100
    ensures var s := Assemble(y, Pad(mo, 2), Pad(d, 2), Pad(h, 2), Pad(mi, 2), Pad(sec, 2));
            && (DateTimeForm(s) <==> |y| == 4 && Decimal.AllDigits(y))
            && (DateTimeForm(s) ==>
                  ReadDateTime(s) == DaysFromCivil(Date(Decimal.ToNat(y), mo, d)) * 86_400 + h * 3_600 + mi * 60 + sec)
  {
    TwoDigits(mo);
    TwoDigits(d);
    TwoDigits(h);
    TwoDigits(mi);
    TwoDigits(sec);
    var s := Assemble(y, Pad(mo, 2), Pad(d, 2), Pad(h, 2), Pad(mi, 2), Pad(sec, 2));
    assert |s| == |y| + 16;
    if |y| == 4 {
      FieldsOf(y, Pad(mo, 2), Pad(d, 2), Pad(h, 2), Pad(mi, 2), Pad(sec, 2));
    }
  }

  lemma FieldsOf(y: string, mo: string, d: string, h: string, mi: string, sec: string)
    requires |y| == 4 && |mo| == |d| == |h| == |mi| == |sec| == 2
    ensures var s := Assemble(y, mo, d, h, mi, sec);
            && |s| == 20 && s[0..4] == y && s[4] == '-' && s[5..7] == mo && s[7] == '-' && s[8..10] == d
            && s[10] == 'T' && s[11..13] == h && s[13] == ':' && s[14..16] == mi && s[16] == ':'
            && s[17..19] == sec && s[19] == 'Z'
  {
  }

  lemma YearFieldFits(y: int)
    ensures |YearText(y)| == 4 && Decimal.AllDigits(YearText(y)) <==> 0 <= y <= 9_999
    ensures 0 <= y <= 9_999 ==> Decimal.ToNat(YearText(y)) == y
  {
    if y < 0 {
      assert YearText(y)[0] == '-';
    } else {
      DigitsNeeded(y);
      PadReadsBack(y, 4);
    }
  }

  lemma DateTimeTextReadsBack(d: Date, seconds: nat)
    requires ValidDate(d) && seconds < 86_400
    ensures DateTimeForm(DateTimeText(d, seconds)) <==> 0 <= d.year <= 9_999
    ensures DateTimeForm(DateTimeText(d, seconds)) ==>
              ReadDateTime(DateTimeText(d, seconds)) == DaysFromCivil(d) * 86_400 + seconds
  {
    var h, mi, sec := seconds / 3_600, seconds % 3_600 / 60, seconds % 60;
    assert 0 <= h < 24 && 0 <= mi < 60 && h * 3_600 + mi * 60 + sec == seconds;
    YearFieldFits(d.year);
    AssembledFields(YearText(d.year), d.month, d.day, h, mi, sec);
    assert d == Date(d.year, d.month, d.day);
  }

  /** The first second of 0000-01-01 and the last of 9999-12-31, and the days they fall on. */
  const FIRST_SECOND: int := -62_167_219_200
  const LAST_SECOND: int := 253_402_300_799
  const FIRST_DAY: int := -719_528
  const LAST_DAY: int := 2_932_896

  lemma FirstDay(d: Date)
    requires d.year == 0 && d.month == 1 && d.day == 1
    ensures ValidDate(d) && DaysFromCivil(d) == FIRST_DAY
  {
    assert DaysBefore(d.year, 1) == 0;
    Quotient(-1, 4, -1, 3);
    Quotient(-1, 100, -1, 99);
    Quotient(-1, 400, -1, 399);
  }

  lemma LastDay(d: Date)
    requires d.year == 9_999 && d.month == 12 && d.day == 31
    ensures ValidDate(d) && DaysFromCivil(d) == LAST_DAY
  {
    MonthTable(d.year);
    Quotient(9_998, 4, 2_499, 2);
    Quotient(9_998, 100, 99, 98);
    Quotient(9_998, 400, 24, 398);
  }

  /** Which days have a year of at most four digits and no sign. */
  lemma FourDigitYears(days: int)
    ensures 0 <= CivilFromDays(days).year <= 9_999 <==> FIRST_DAY <= days <= LAST_DAY
  {
    var d, first, last := CivilFromDays(days), Date(0, 1, 1), Date(9_999, 12, 31);
    CivilFromDaysIsRight(days);
    FirstDay(first);
    LastDay(last);
    WithinYears(d, first, last);
  }

  lemma WithinYears(d: Date, first: Date, last: Date)
    requires ValidDate(d) && ValidDate(first) && ValidDate(last)
    requires first.month == 1 && first.day == 1 && last.month == 12 && last.day == 31
    ensures first.year <= d.year <==> DaysFromCivil(first) <= DaysFromCivil(d)
    ensures d.year <= last.year <==> DaysFromCivil(d) <= DaysFromCivil(last)
  {
    if Earlier(first, d) {
      DaysAreOrdered(first, d);
    } else if Earlier(d, first) {
      DaysAreOrdered(d, first);
    }
    if Earlier(last, d) {
      DaysAreOrdered(last, d);
    } else if Earlier(d, last) {
      DaysAreOrdered(d, last);
    }
  }

  lemma DaysOfSeconds(t: int)
    ensures FIRST_DAY <= t / 86_400 <= LAST_DAY <==> FIRST_SECOND <= t <= LAST_SECOND
  {
    var days, seconds := t / 86_400, t % 86_400;
    assert t == 86_400 * days + seconds && 0 <= seconds < 86_400;
  }

  /** The text is an RFC 3339 date-time exactly for the instants from the start of year 0 to the end of
      year 9999, and then it reads back as the instant it was made from. */
  lemma Rfc3339RoundTrip(t: int)
    ensures DateTimeForm(Rfc3339(t)) <==> FIRST_SECOND <= t <= LAST_SECOND
    ensures DateTimeForm(Rfc3339(t)) ==> ReadDateTime(Rfc3339(t)) == t
  {
    CivilFromDaysIsRight(t / 86_400);
    DateTimeTextReadsBack(CivilFromDays(t / 86_400), t % 86_400);
    FourDigitYears(t / 86_400);
    DaysOfSeconds(t);
  }

  lemma DayAfterLast(days: int, d: Date)
    requires days == LAST_DAY && d == Date(9_999, 12, 31)
    ensures CivilFromDays(days + 1) == Date(10_000, 1, 1)
  {
    LastDay(d);
    FoundAt(d, days);
    ConsecutiveDays(days);
  }

  /** One second past year 9999 the date has a five-digit year, which the form does not allow. */
  lemma YearTenThousand(t: int)
    requires t == 253_402_300_800
    ensures CivilFromDays(t / 86_400) == Date(10_000, 1, 1) && !DateTimeForm(Rfc3339(t))
  {
    var days := t / 86_400 - 1;
    assert days == LAST_DAY;
    DayAfterLast(days, Date(9_999, 12, 31));
    Rfc3339RoundTrip(t);
  }

  lemma TwoDigits(n: nat)
    requires n < 100
    ensures |Pad(n, 2)| == 2 && Decimal.ToNat(Pad(n, 2)) == n
  {
    DigitsNeeded(n);
    PadReadsBack(n, 2);
  }
}
