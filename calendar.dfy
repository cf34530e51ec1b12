/** Proleptic Gregorian calendar dates and the two one-month steps the
    reconciliation engine uses: the "strict" step of add_one_month_strict and
    the clamping step of dateutil's relativedelta(months=1). */
module Calendar {
  import opened Wrappers

  datatype Date = Date(year: int, month: int, day: int)

  predicate IsLeapYear(y: int) {
    y % 4 == 0 && (y % 100 != 0 || y % 400 == 0)
  }

  function DaysInMonth(y: int, m: int): (n: int)
    requires 1 <= m <= 12
    ensures 28 <= n <= 31
  {
    if m == 2 then (if IsLeapYear(y) then 29 else 28)
    else if m == 4 || m == 6 || m == 9 || m == 11 then 30
    else 31
  }

  predicate IsValid(d: Date) {
    1 <= d.year && 1 <= d.month <= 12 && 1 <= d.day <= DaysInMonth(d.year, d.month)
  }

  /** A calendar date that exists (pandas never holds any other kind). */
  type ValidDate = d: Date | IsValid(d) witness Date(1970, 1, 1)

  /** Chronological order: lexicographic on (year, month, day). */
  predicate Before(a: Date, b: Date) {
    a.year < b.year
    || (a.year == b.year && (a.month < b.month || (a.month == b.month && a.day < b.day)))
  }

  predicate NotAfter(a: Date, b: Date) {
    a == b || Before(a, b)
  }

  /** An order-preserving natural number for valid dates; it serves as the
      termination measure of the period loop. */
  function Rank(d: ValidDate): nat {
    d.year * 512 + d.month * 32 + d.day
  }

  lemma RankIncreases(a: ValidDate, b: ValidDate)
    requires Before(a, b)
    ensures Rank(a) < Rank(b)
  {
  }

  /** Months counted from year 0: the month of d is MonthIndex(d) % 12 + 1
      in year MonthIndex(d) / 12. */
  function MonthIndex(d: Date): int {
    d.year * 12 + (d.month - 1)
  }

  /** Number of days of the month with the given month index. */
  function MonthLength(i: int): int {
    DaysInMonth(i / 12, i % 12 + 1)
  }

  lemma MonthIndexParts(d: ValidDate)
    ensures MonthIndex(d) / 12 == d.year && MonthIndex(d) % 12 + 1 == d.month
    ensures MonthLength(MonthIndex(d)) == DaysInMonth(d.year, d.month)
  {
  }

  /** A date in an earlier month is an earlier date. */
  lemma MonthIndexOrder(a: ValidDate, b: ValidDate)
    requires MonthIndex(a) < MonthIndex(b)
    ensures Before(a, b)
  {
    MonthIndexParts(a);
    MonthIndexParts(b);
  }

  /** The day after d. */
  function NextDay(d: ValidDate): (r: ValidDate)
    ensures Before(d, r)
  {
    if d.day < DaysInMonth(d.year, d.month) then Date(d.year, d.month, d.day + 1)
    else if d.month < 12 then Date(d.year, d.month + 1, 1)
    else Date(d.year + 1, 1, 1)
  }

  /** The day before d (pandas' "- Timedelta(days=1)"). */
  function PrevDay(d: ValidDate): (r: ValidDate)
    requires d != Date(1, 1, 1)
    ensures NextDay(r) == d
  {
    if d.day > 1 then Date(d.year, d.month, d.day - 1)
    else if d.month > 1 then Date(d.year, d.month - 1, DaysInMonth(d.year, d.month - 1))
    else Date(d.year - 1, 12, 31)
  }

  /** No date lies strictly between d and its successor. */
  lemma NextDayAdjacent(d: ValidDate, e: ValidDate)
    requires Before(d, e)
    ensures NotAfter(NextDay(d), e)
  {
  }

  lemma PrevDayOfNextDay(d: ValidDate)
    ensures PrevDay(NextDay(d)) == d
  {
  }

  /** The successor preserves and reflects the order of dates. */
  lemma NextDayMonotone(a: ValidDate, b: ValidDate)
    ensures Before(a, b) <==> Before(NextDay(a), NextDay(b))
    ensures NotAfter(a, b) <==> NotAfter(NextDay(a), NextDay(b))
  {
    if Before(a, b) {
      NextDayAdjacent(a, b);
    } else if Before(b, a) {
      NextDayAdjacent(b, a);
    }
  }

  /** Every valid date strictly after some valid date has a predecessor,
      which is not before that date. */
  lemma PrevDayNotBefore(a: ValidDate, b: ValidDate)
    requires Before(a, b)
    ensures b != Date(1, 1, 1) && NotAfter(a, PrevDay(b))
  {
  }

  /** d with its day-of-month replaced (Timestamp.replace(day=...)); None
      where Python raises ValueError because the day does not exist. */
  function ReplaceDay(d: ValidDate, day: int): (r: Option<ValidDate>)
    ensures r.Some? <==> 1 <= day <= DaysInMonth(d.year, d.month)
    ensures r.Some? ==> MonthIndex(r.value) == MonthIndex(d) && r.value.day == day
  {
    if 1 <= day <= DaysInMonth(d.year, d.month) then Some(Date(d.year, d.month, day)) else None
  }

  /** The (year, month) after month m of year y, December rolling over. */
  function MonthAfter(y: int, m: int): (r: (int, int))
    requires 1 <= m <= 12
    ensures 1 <= r.1 <= 12
    ensures r.0 * 12 + (r.1 - 1) == y * 12 + (m - 1) + 1
  {
    if m == 12 then (y + 1, 1) else (y, m + 1)
  }

  /** add_one_month_strict: the same day one month later, or, when that day
      does not exist in the next month, the 1st of the month after it. */
  function AddOneMonthStrict(d: ValidDate): (r: ValidDate)
    ensures Before(d, r)
    ensures d.day <= MonthLength(MonthIndex(d) + 1) ==> MonthIndex(r) == MonthIndex(d) + 1 && r.day == d.day
    ensures d.day > MonthLength(MonthIndex(d) + 1) ==> MonthIndex(r) == MonthIndex(d) + 2 && r.day == 1
  {
    var (y, m) := MonthAfter(d.year, d.month);
    MonthIndexParts(Date(y, m, 1));
    if d.day <= DaysInMonth(y, m) then Date(y, m, d.day)
    else
      var (y2, m2) := MonthAfter(y, m);
      MonthIndexParts(Date(y2, m2, 1));
      Date(y2, m2, 1)
  }

  /** relativedelta(months=1): the same day one month later, clamped to the
      last day of that month. */
  function AddOneMonthClamped(d: ValidDate): (r: ValidDate)
    ensures Before(d, r)
    ensures MonthIndex(r) == MonthIndex(d) + 1
    ensures r.day == if d.day <= MonthLength(MonthIndex(d) + 1) then d.day else MonthLength(MonthIndex(d) + 1)
  {
    var (y, m) := MonthAfter(d.year, d.month);
    MonthIndexParts(Date(y, m, 1));
    var last := DaysInMonth(y, m);
    Date(y, m, if d.day <= last then d.day else last)
  }

  /** The clamping step never lands after the strict step, and they agree
      whenever the day exists in the next month. */
  lemma ClampedNotAfterStrict(d: ValidDate)
    ensures NotAfter(AddOneMonthClamped(d), AddOneMonthStrict(d))
    ensures d.day <= MonthLength(MonthIndex(d) + 1) <==> AddOneMonthClamped(d) == AddOneMonthStrict(d)
  {
    var c, s := AddOneMonthClamped(d), AddOneMonthStrict(d);
    MonthIndexParts(c);
    MonthIndexParts(s);
    if d.day > MonthLength(MonthIndex(d) + 1) {
      assert MonthIndex(c) < MonthIndex(s);
    }
  }

  lemma AddOneMonthStrictExamples()
    ensures AddOneMonthStrict(Date(2024, 1, 31)) == Date(2024, 3, 1)
    ensures AddOneMonthStrict(Date(2024, 1, 15)) == Date(2024, 2, 15)
    ensures AddOneMonthStrict(Date(2023, 12, 31)) == Date(2024, 1, 31)
    ensures AddOneMonthStrict(Date(2023, 1, 29)) == Date(2023, 3, 1)
    ensures AddOneMonthClamped(Date(2024, 1, 31)) == Date(2024, 2, 29)
  {
  }
}
