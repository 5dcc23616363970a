/**
  The weekly recap's periods: the key of a date (backend/app/email/deliveries.py), the week it is parsed
  back to (backend/app/jobs/weekly_email.py) and the week it reports (backend/app/email/recap.py). Days are
  proleptic Gregorian ordinals, day 1 a Monday; isocalendar and fromisocalendar are as Python's datetime
  defines them, after ISO 8601:2004 section 4.1.4.
 */
module WeeklyPeriods {
  import opened Basics
  import opened DecimalText

  // ---------------------------------------------------------------- the calendar

  predicate Leap(y: int) {
    y % 4 == 0 && (y % 100 != 0 || y % 400 == 0)
  }

  function YearLength(y: int): int {
    if Leap(y) then 366 else 365
  }

  /** The ordinal of 1 January. */
  function Jan1(y: int): int
    requires y >= 1
  {
    if y == 1 then 1 else Jan1(y - 1) + YearLength(y - 1)
  }

  lemma ScaledBounds(n: int, k: int)
    requires n > 0
    ensures k >= 1 ==> n * k >= n
    ensures k <= -1 ==> n * k <= -n
  {
  }

  lemma QuotientIs(y: int, n: int, q: int, r: int)
    requires n > 0 && y == n * q + r && 0 <= r < n
    ensures y / n == q && y % n == r
  {
    var k := y / n - q;
    assert n * k == r - y % n;
    ScaledBounds(n, k);
  }

  lemma QuotientStep(y: int, n: int)
    requires n > 0
    ensures y / n - (y - 1) / n == if y % n == 0 then 1 else 0
  {
    var q, r := (y - 1) / n, (y - 1) % n;
    if r == n - 1 {
      assert n * (q + 1) == n * q + n;
      QuotientIs(y, n, q + 1, 0);
    } else {
      QuotientIs(y, n, q, r + 1);
    }
  }

  lemma LeapIs(y: int)
    ensures y % 100 == 0 ==> y % 4 == 0
    ensures y % 400 == 0 ==> y % 100 == 0
  {
    QuotientIs(y, 4, 25 * (y / 100) + (y % 100) / 4, (y % 100) % 4);
    QuotientIs(y, 100, 4 * (y / 400) + (y % 400) / 100, (y % 400) % 100);
  }

  /** The closed form Python computes with. */
  function DaysBeforeYear(y: int): int {
    365 * (y - 1) + (y - 1) / 4 - (y - 1) / 100 + (y - 1) / 400
  }

  lemma {:induction false} Jan1Closed(y: int)
    requires y >= 1
    ensures Jan1(y) == DaysBeforeYear(y) + 1
  {
    if y > 1 {
      Jan1Closed(y - 1);
      QuotientStep(y - 1, 4);
      QuotientStep(y - 1, 100);
      QuotientStep(y - 1, 400);
      LeapIs(y - 1);
    }
  }

  /** A datetime.date: a year and the day of that year. */
  datatype Date = Date(year: int, day: int)

  predicate ValidDate(d: Date) {
    1 <= d.year <= 9999 && 1 <= d.day <= YearLength(d.year)
  }

  function Ordinal(d: Date): int
    requires ValidDate(d)
  {
    Jan1(d.year) + d.day - 1
  }

  /** weekday(), Monday 0. */
  function Weekday(day: int): int {
    (day + 6) % 7
  }

  function MondayOf(day: int): int {
    day - Weekday(day)
  }

  // ---------------------------------------------------------------- ISO weeks

  /** The Monday of ISO week 1 of a year that begins on this day. */
  function FirstMonday(first: int): int {
    if Weekday(first) > 3 then MondayOf(first) + 7 else MondayOf(first)
  }

  function Week1Monday(y: int): int
    requires y >= 1
  {
    FirstMonday(Jan1(y))
  }

  /** ISO week 1 is the week that holds 4 January. */
  lemma Week1HoldsJanuary4(first: int)
    ensures Weekday(FirstMonday(first)) == 0 && FirstMonday(first) <= first + 3 < FirstMonday(first) + 7
  {
  }

  /** Whole weeks from a Monday lead to Mondays. */
  lemma SameWeekday(monday: int, day: int)
    requires Weekday(monday) == 0
    ensures MondayOf(day) == monday + 7 * ((day - monday) / 7)
  {
  }

  lemma YearIsWeeks(first: int, length: int)
    requires length == 365 || length == 366
    ensures var weeks := FirstMonday(first + length) - FirstMonday(first); weeks == 364 || weeks == 371
    ensures FirstMonday(first + length) - FirstMonday(first) == 371 <==>
              first % 7 == 4 || (first % 7 == 3 && length == 366)
  {
  }

  /** isocalendar(): the ISO year and week. */
  function IsoWeek(d: Date): (int, int)
    requires ValidDate(d)
  {
    var today := Ordinal(d);
    var week := (today - Week1Monday(d.year)) / 7;
    if week < 0 then (d.year - 1, if d.year == 1 then 0 else (today - Week1Monday(d.year - 1)) / 7 + 1)
    else if week >= 52 && today >= Week1Monday(d.year + 1) then (d.year + 1, 1)
    else (d.year, week + 1)
  }

  /** The year's first and last days lie in it, in the one before or in the one after. */
  lemma IsoYearCases(today: int, before: int, first: int, next: int)
    requires first <= today < next && 365 <= next - first <= 366 && 365 <= first - before <= 366
    ensures (today - FirstMonday(first)) / 7 < 0 <==> today < FirstMonday(first)
    ensures today < FirstMonday(first) ==> FirstMonday(before) <= today
    ensures today >= FirstMonday(next) ==> (today - FirstMonday(first)) / 7 >= 52 && today - FirstMonday(next) < 7
    ensures today < FirstMonday(next) ==> today < FirstMonday(first) + 371
  {
    YearIsWeeks(first, next - first);
    YearIsWeeks(before, first - before);
    Week1HoldsJanuary4(first);
    Week1HoldsJanuary4(next);
    Week1HoldsJanuary4(before);
  }

  lemma LastYearEnds()
    ensures Week1Monday(10000) > Jan1(10000)
  {
    Jan1Closed(10000);
    assert DaysBeforeYear(10000) == 3652059;
    assert FirstMonday(3652060) == 3652062;
  }

  /** A date lies in the ISO year it is given, and the week counts from that year's first Monday. */
  lemma IsoWeekIs(d: Date)
    requires ValidDate(d)
    ensures var (year, week) := IsoWeek(d);
            && 1 <= year <= 9999 && 1 <= week <= 53
            && Week1Monday(year) <= Ordinal(d) < Week1Monday(year + 1)
            && week == (Ordinal(d) - Week1Monday(year)) / 7 + 1
  {
    var first := Jan1(d.year);
    var before := if d.year == 1 then first - 365 else Jan1(d.year - 1);
    IsoYearCases(Ordinal(d), before, first, Jan1(d.year + 1));
    if d.year == 9999 { LastYearEnds(); }
    if d.year == 1 { assert Week1Monday(1) == 1; }
    IsoYearEnds(Ordinal(d), Jan1(d.year + 1), YearLength(d.year + 1));
  }

  lemma IsoYearEnds(today: int, next: int, length: int)
    requires length == 365 || length == 366
    requires today < next
    ensures today < FirstMonday(next + length)
  {
    YearIsWeeks(next, length);
    Week1HoldsJanuary4(next);
  }

  /** fromisocalendar(year, week, 1), with its range checks; None raises ValueError. */
  function FromIso(year: int, week: int): Option<int> {
    if !(1 <= year <= 9999) then None
    else if 0 < week < 53 then Some(Week1Monday(year) + 7 * (week - 1))
    else if week == 53 && (Jan1(year) % 7 == 4 || (Jan1(year) % 7 == 3 && Leap(year)))
    then Some(Week1Monday(year) + 7 * (week - 1))
    else None
  }

  /** The check for a week 53 is exact: it passes when the year has one. */
  lemma Week53Check(year: int)
    requires 1 <= year <= 9999
    ensures FromIso(year, 53).Some? <==> Week1Monday(year) + 7 * 52 < Week1Monday(year + 1)
  {
    YearIsWeeks(Jan1(year), YearLength(year));
  }

  // ---------------------------------------------------------------- keys

  function TwoDigits(n: int): string
    requires 0 <= n < 100
  {
    [Digit(n / 10), Digit(n % 10)]
  }

  /** recap_period_key. */
  function RecapPeriodKey(d: Date): string
    requires ValidDate(d)
  {
    IsoWeekIs(d);
    var (year, week) := IsoWeek(d);
    ToText(year) + "-W" + TwoDigits(week)
  }

  /** partition("-W"): what stands before and after its first occurrence. */
  function Partition(s: string): (string, string) {
    if |s| < 2 then (s, "")
    else if s[..2] == "-W" then ("", s[2..])
    else
      var (before, after) := Partition(s[1..]);
      ([s[0]] + before, after)
  }

  predicate AllDigits(s: string) {
    s != "" && forall i :: 0 <= i < |s| ==> IsDigit(s[i])
  }

  /** The start of _build: the Monday of the week the key names; None is a ValueError. */
  function SendWeekMonday(key: string): Option<int> {
    var (year, week) := Partition(key);
    if !AllDigits(year) || !AllDigits(week) then None
    else FromIso(ParseNat(year), ParseNat(week))
  }

  lemma {:induction false} PartitionJoined(year: string, week: string)
    requires '-' !in year
    ensures Partition(year + "-W" + week) == (year, week)
  {
    var s := year + "-W" + week;
    if year == "" {
      assert s[..2] == "-W" && s[2..] == week;
    } else {
      assert s[0] == year[0] && s[..2][0] == s[0] && s[0] != '-';
      assert s[..2] != "-W";
      assert s[1..] == year[1..] + "-W" + week;
      PartitionJoined(year[1..], week);
      assert [s[0]] + year[1..] == year;
    }
  }

  lemma TwoDigitsParse(n: int)
    requires 0 <= n < 100
    ensures AllDigits(TwoDigits(n)) && ParseNat(TwoDigits(n)) == n
  {
    var s := TwoDigits(n);
    assert s[..1] == [Digit(n / 10)] && s[..1][..0] == [];
    assert ParseNat(s[..1]) == n / 10;
  }

  lemma KeyParts(d: Date)
    requires ValidDate(d)
    ensures var (year, week) := IsoWeek(d);
            1 <= week <= 53 && year >= 1 && Partition(RecapPeriodKey(d)) == (ToText(year), TwoDigits(week))
  {
    IsoWeekIs(d);
    var (year, week) := IsoWeek(d);
    var text := ToText(year);
    assert forall i :: 0 <= i < |text| ==> text[i] != '-';
    PartitionJoined(text, TwoDigits(week));
  }

  /** The week a day is counted in, from its ISO year's first Monday, exists and begins on the day's Monday. */
  lemma FromIsoAt(year: int, week: int, day: int)
    requires 1 <= year <= 9999 && Week1Monday(year) <= day < Week1Monday(year + 1)
    requires 1 <= week <= 53 && week == (day - Week1Monday(year)) / 7 + 1
    ensures FromIso(year, week) == Some(MondayOf(day))
  {
    Week1HoldsJanuary4(Jan1(year));
    SameWeekday(Week1Monday(year), day);
    if week == 53 {
      Week53Check(year);
    }
  }

  /** Reading a date's key back gives the Monday of its week. */
  lemma KeyRoundTrip(d: Date)
    requires ValidDate(d)
    ensures SendWeekMonday(RecapPeriodKey(d)) == Some(MondayOf(Ordinal(d)))
  {
    KeyParts(d);
    IsoWeekIs(d);
    var (year, week) := IsoWeek(d);
    TwoDigitsParse(week);
    FromIsoAt(year, week, Ordinal(d));
  }

  /** Two dates share a key exactly when they are in the same week. */
  lemma KeyNamesTheWeek(d: Date, e: Date)
    requires ValidDate(d) && ValidDate(e)
    ensures RecapPeriodKey(d) == RecapPeriodKey(e) <==> MondayOf(Ordinal(d)) == MondayOf(Ordinal(e))
  {
    KeyRoundTrip(d);
    KeyRoundTrip(e);
    if MondayOf(Ordinal(d)) == MondayOf(Ordinal(e)) {
      SameWeekSameYear(d, e);
    }
  }

  lemma {:induction false} Week1Increases(y: int, z: int)
    requires 1 <= y < z
    ensures Week1Monday(y + 1) <= Week1Monday(z)
    decreases z - y
  {
    if z > y + 1 {
      Week1Increases(y, z - 1);
      YearIsWeeks(Jan1(z - 1), YearLength(z - 1));
    }
  }

  /** A Monday between two days keeps them in different weeks. */
  lemma MondayBetween(monday: int, x: int, y: int)
    requires Weekday(monday) == 0 && x < monday <= y
    ensures MondayOf(x) != MondayOf(y)
  {
    SameWeekday(monday, y);
  }

  lemma YearsApart(y: int, z: int, a: int, b: int)
    requires 1 <= y < z && a < Week1Monday(y + 1) && Week1Monday(z) <= b
    ensures MondayOf(a) != MondayOf(b)
  {
    Week1Increases(y, z);
    Week1HoldsJanuary4(Jan1(z));
    MondayBetween(Week1Monday(z), a, b);
  }

  lemma SameCount(monday: int, a: int, b: int)
    requires Weekday(monday) == 0 && MondayOf(a) == MondayOf(b)
    ensures (a - monday) / 7 == (b - monday) / 7
  {
    SameWeekday(monday, a);
    SameWeekday(monday, b);
  }

  /** The week of a year that a day is in. */
  predicate InWeek(year: int, week: int, day: int) {
    && 1 <= year && Week1Monday(year) <= day < Week1Monday(year + 1)
    && week == (day - Week1Monday(year)) / 7 + 1
  }

  lemma WeekIsUnique(y: int, v: int, a: int, z: int, w: int, b: int)
    requires InWeek(y, v, a) && InWeek(z, w, b) && MondayOf(a) == MondayOf(b)
    ensures y == z && v == w
  {
    if y < z {
      YearsApart(y, z, a, b);
    } else if z < y {
      YearsApart(z, y, b, a);
    } else {
      Week1HoldsJanuary4(Jan1(y));
      SameCount(Week1Monday(y), a, b);
    }
  }

  lemma SameWeekSameYear(d: Date, e: Date)
    requires ValidDate(d) && ValidDate(e) && MondayOf(Ordinal(d)) == MondayOf(Ordinal(e))
    ensures IsoWeek(d) == IsoWeek(e)
  {
    IsoWeekIs(d);
    IsoWeekIs(e);
    WeekIsUnique(IsoWeek(d).0, IsoWeek(d).1, Ordinal(d), IsoWeek(e).0, IsoWeek(e).1, Ordinal(e));
  }

  // ---------------------------------------------------------------- the week reported

  /** week_bounds. */
  function WeekBounds(day: int): (int, int) {
    var lastMonday := MondayOf(day) - 7;
    (lastMonday, lastMonday + 6)
  }

  /** The recap sent under a key covers this day. */
  predicate Reports(key: string, day: int) {
    match SendWeekMonday(key)
    case None => false
    case Some(monday) =>
      var (first, last) := WeekBounds(monday);
      first <= day <= last
  }

  /**
    The reported weeks tile the calendar: a day is covered by the recap whose key is that of the same
    weekday a week later, and by no other date's key. (A recap is sent on one weekday, so under each key
    on one local date only.)
   */
  lemma ReportedWeeksTile(d: Date, e: Date)
    requires ValidDate(d) && ValidDate(e)
    ensures Reports(RecapPeriodKey(e), Ordinal(d)) <==> MondayOf(Ordinal(e)) == MondayOf(Ordinal(d)) + 7
    ensures Ordinal(e) == Ordinal(d) + 7 ==> Reports(RecapPeriodKey(e), Ordinal(d))
  {
    KeyRoundTrip(e);
    WeekBefore(Ordinal(e), Ordinal(d));
  }

  lemma WeekBefore(sent: int, day: int)
    ensures var (first, last) := WeekBounds(MondayOf(sent));
            first <= day <= last <==> MondayOf(sent) == MondayOf(day) + 7
    ensures sent == day + 7 ==> MondayOf(sent) == MondayOf(day) + 7
  {
    var monday := MondayOf(sent);
    SameWeekday(monday, monday);
    SameWeekday(monday - 7, day);
  }

  lemma EveryDayReportedOnce(d: Date, e: Date, f: Date)
    requires ValidDate(d) && ValidDate(e) && ValidDate(f)
    requires Reports(RecapPeriodKey(e), Ordinal(d))
    ensures Reports(RecapPeriodKey(f), Ordinal(d)) <==> RecapPeriodKey(f) == RecapPeriodKey(e)
  {
    ReportedWeeksTile(d, e);
    ReportedWeeksTile(d, f);
    KeyNamesTheWeek(e, f);
  }

  lemma OneSendDatePerKey(d: Date, e: Date)
    requires ValidDate(d) && ValidDate(e) && RecapPeriodKey(d) == RecapPeriodKey(e)
    requires Weekday(Ordinal(d)) == Weekday(Ordinal(e))
    ensures Ordinal(d) == Ordinal(e)
  {
    KeyNamesTheWeek(d, e);
  }
}
